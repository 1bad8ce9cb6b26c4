# ScanEat backend core in Dafny

This project models the request-handling core of the ScanEat restaurant-ordering backend: an
Express application on TypeORM and PostgreSQL. The model covers:

- the bearer-token session guard (`checkLogin`) and the role guard (`checkRole`);
- the order workflow: creation with a price snapshot, a one-day order capability token,
  reading and paying by that token, the owner-checked read by id, and a user's listing;
- the category handlers, including the owner-or-admin check and the cascading delete;
- the user handlers: login, registration, reading the caller's profile, and deleting the account;
- the dish review handlers, with the author's display name;
- the User and Order entities: roles, statuses, column defaults, password hashing,
  session tokens and `getName`;
- the order and category route tables: which guards run in front of which handler.

The database is an immutable `Store` of six tables. Each table maps serial primary keys to
records and hands out the next key on insert (`Store.Insert`). Listing a table or a relation
yields rows in ascending key order.

A handler is a pure function from the store, the request-scoped context (`res.locals` and the
`authorization` header set so far) and its request inputs to an `Outcome`. An outcome is the
reply (status, body, `authorization` header) together with the store left behind.

Some source behaviour is mapped onto this shape as follows:

- An exception caught by a handler's `catch` becomes the status that `catch` sends.
- An exception thrown outside every `try` becomes `Unanswered`. Express 4 never sends a response,
  and the handler's promise rejects with nobody handling it; on Node 15 and later that ends the
  whole process by default. `Unanswered` records only that no response is sent.
- A relation that does not load (a null foreign key, or a row that is gone) is read through as
  `undefined`. The resulting `TypeError` is caught like any other exception.
- Tokens (`Jwt`) and password hashes (`Bcrypt`) are ideal. A token records whether it was signed
  with the server's secret, and verifies exactly when it is genuine and unexpired. A hash accepts
  exactly the password it was made from.
- Clocks and bcrypt salts are parameters.

The model also keeps these details of the code:

- An order has no `paid` flag and no `table` number. Paying writes `PAID` into the status.
- The statuses are WAITING, CONFIRMED, REFUSED and PAID. No handler moves an order to any other
  status than PAID, and no staff handler updates an order.
- Creation charges each distinct existing dish once. `findByIds` drops unknown ids instead of
  failing, and it collapses repeated ids, so repeating an id does not order a dish twice.
- Redeeming an order token does not check that the order belongs to the restaurant the token names.
- Registration stores whatever role is requested, ADMIN included.
- `Order.price` and `DishReview.note` are `number` columns, which PostgreSQL stores as 32-bit
  `integer`: a value outside that range makes the save fail, and the handler answers 404.

The model describes two variants of the program side by side (`Variants.Variant`): the code as
written, and the code with the defects listed under Findings corrected. The guards, and the
handlers those defects touch, take the variant as a parameter. A lemma that takes the variant as
a parameter holds of both programs; the others name the variant they are about.

## Model

| member | source | states |
|---|---|---|
| Wrappers.MapAll | src/routes/Order/controller.ts:96-102 | mapping with a callback that may throw succeeds exactly when every element succeeds, and then yields each element's image in order |
| Wrappers.MapAllSnoc | src/routes/DishReview/controller.ts:36 | mapping one more element extends a successful result by that element's image |
| Store.First | src/routes/auth.ts:41 | the first row of an unconditioned query exists iff the table has a row, and has the lowest key |
| Jwt.Verify | src/routes/auth.ts:37 | verification returns the claims iff a token is present, genuine and unexpired; otherwise it throws |
| Jwt.SignThenVerify | src/routes/Order/controller.ts:132-137 | a signed token verifies to exactly its claims for its lifetime and never after |
| Jwt.ForgedNeverVerifies | src/routes/auth.ts:37 | a token not signed with the server's secret never verifies |
| Bcrypt.CompareHashed | src/entities/User.ts:50-59 | comparing a candidate with a hash succeeds iff it is the hashed password, whatever the salt |
| UserEntity.ParseType | src/entities/User.ts:8-12 | a role string reads back only as the role with that value |
| UserEntity.TypeNameRoundTrip | src/entities/User.ts:8-12 | every role's string value reads back as that role |
| UserEntity.NewUser | src/entities/User.ts:31-53 | a new user has the type requested, or CLIENT by default; its password check accepts exactly the submitted password |
| UserEntity.SessionToken | src/entities/User.ts:60-66 | the session token carries exactly `{userId, email}` and expires seven days after issue |
| UserEntity.SessionTokenVerifies | src/entities/User.ts:60-66 | a session token verifies to `{userId, email}` for seven days and not after |
| UserEntity.Initial | src/entities/User.ts:68 | the initial is the first character of the last name, or empty when there is none |
| UserEntity.GetNameShape | src/entities/User.ts:67-69 | the display name is the first name (or "undefined"), a space, at most one last-name character, and a full stop |
| UserEntity.GetNameDecidedByInitial | src/entities/User.ts:67-69 | with equal first names, display names are equal iff the initials are equal |
| OrderEntity.ParseStatus | src/entities/Order.ts:6-11 | a status string reads back only as the status with that value |
| OrderEntity.StatusNameRoundTrip | src/entities/Order.ts:6-11 | every status's string value reads back as that status |
| OrderEntity.NewOrder | src/entities/Order.ts:18-32 | a new order is WAITING; its price defaults to 0; the given dishes, owner and restaurant are kept |
| Headers.AsWrittenFindsNothing | src/routes/Order/controller.ts:33 | looking up `orderToken` in the lower-cased request headers finds nothing, whatever was sent |
| Headers.CorrectedReadsSentToken | src/routes/Order/controller.ts:33 | looking up the lower-cased name finds the token sent under any capitalisation of `orderToken` |
| Auth.SessionUser | src/routes/auth.ts:40-41 | a session payload loads the user it names, if that user exists; an order payload loads the lowest-keyed user as written, and nobody corrected |
| Auth.Authenticated | src/routes/auth.ts:36-42 | a bearer token authenticates a user iff it verifies and its payload loads one |
| Auth.SessionTokenAuthenticates | src/routes/auth.ts:36-44 | a session token issued to a stored user authenticates exactly that user until it expires, and nobody after |
| Auth.OnlySessionTokensAuthenticate | src/routes/auth.ts:40-41 | corrected, whatever authenticates is a session token, as the user it names |
| Auth.OrderTokenAuthenticatesFirstUser | src/routes/auth.ts:40-41 | as written, a genuine unexpired order token authenticates as the lowest-keyed user; corrected, as nobody |
| Auth.CheckLogin | src/routes/auth.ts:32-55 | never throws; continues iff passthrough or authenticated; binds exactly the authenticated user; refreshes the session token; records the payload whenever verification succeeded; otherwise answers 401 |
| Auth.CheckRole | src/routes/auth.ts:12-30 | throws iff no payload is recorded; continues iff the payload loads a user with a listed role, recording it; otherwise answers 401 and changes nothing |
| Auth.SessionThenRole | src/routes/auth.ts:12-55 | `[checkLogin(), checkRole(roles)]` never throws, lets a request through iff its token authenticates a user with a listed role, with that user, role and a fresh token, and otherwise answers 401 |
| Auth.OrderTokenPassesAsFirstUser | src/routes/auth.ts:18-20 | as written, an order token passes `[checkLogin(), checkRole(roles)]` as the lowest-keyed user whenever that user's role is listed, and receives that user's session token |
| Auth.CorrectedRefusesOrderTokens | src/routes/auth.ts:12-55 | corrected, an order token is answered 401 by `[checkLogin(), checkRole(roles)]` |
| Auth.PassthroughThenRoleFaults | src/routes/auth.ts:14-49 | after an anonymous `checkLogin(true)`, `checkRole` throws and no response is sent |
| Auth.DeletedUserLikeNoToken | src/routes/auth.ts:36-53 | a valid token whose payload loads no user gets the same decision and bound user as no token at all |
| OrderController.Redeem | src/routes/Order/controller.ts:36-39 | a token is invalid iff it does not verify; an order token redeems iff its order and restaurant both exist, yielding exactly those rows; a session token redeems the lowest-keyed order and restaurant as written, and nothing corrected |
| OrderController.GetByToken | src/routes/Order/controller.ts:30-54 | 401 iff the token does not verify; 200 iff it redeems, with the redeemed order and restaurant and the token echoed; otherwise 404; nothing is written |
| OrderController.MarkPaid | src/routes/Order/controller.ts:164-165 | marking paid changes only that order's status |
| OrderController.Pay | src/routes/Order/controller.ts:154-180 | the same outcomes as reading by token; on success only the redeemed order becomes PAID, and the reply shows it paid |
| OrderController.PayIdempotent | src/routes/Order/controller.ts:154-180 | paying twice leaves the same store and reply as paying once |
| OrderController.FindByIds | src/routes/Order/controller.ts:122 | the lookup yields exactly the existing dishes among the ids, each once, in key order |
| OrderController.Create | src/routes/Order/controller.ts:111-149 | 404 with no write iff the restaurant is unknown or the price sum does not fit a 32-bit `integer`; otherwise one WAITING order under the next key, owned by the session user if any, holding the found dishes, priced at their sum, answered with a one-day token naming that order and restaurant |
| OrderController.GetById | src/routes/Order/controller.ts:59-82 | 401 iff the order exists with an existing owner other than the caller; 200 with the order and its restaurant's name iff owned by the caller and the restaurant exists; otherwise 404 |
| OrderController.GetUserOrders | src/routes/Order/controller.ts:86-107 | unanswered without a bound user; 200 iff the user exists and every order's restaurant loads, listing one entry per order in key order; otherwise 404 |
| OrderController.PriceIgnoresOrderAndRepetition | src/routes/Order/controller.ts:122-123 | the price depends only on the set of requested ids, not their order or repetition |
| OrderController.UnknownDishIsIgnored | src/routes/Order/controller.ts:122-123 | requesting an id that matches no dish leaves the price unchanged |
| OrderController.FilterExtendPrice | src/routes/Order/controller.ts:122-123 | over any key list, adding a new dish id adds exactly that dish's price |
| OrderController.PriceOfAddedDish | src/routes/Order/controller.ts:122-123 | adding a new existing dish to the request adds exactly its price |
| OrderController.PriceOfNoDishes | src/routes/Order/controller.ts:122-123 | an order of no dishes costs 0 |
| OrderController.TokenBindsOneOrder | src/routes/Order/controller.ts:160-165 | an order token reads only the order it names, and paying with it changes no other order |
| OrderController.SessionTokenRedeemsFirstOrder | src/routes/Order/controller.ts:38-39 | as written, a session token presented as an order token reads and pays the lowest-keyed order |
| OrderController.OnlyOrderTokensRedeem | src/routes/Order/controller.ts:36-39 | corrected, a token that is not an order token never reads or pays an order |
| OrderController.CreatedTokenRedeems | src/routes/Order/controller.ts:132-145 | the token `create` returns reads the new order back for one day and pays it at the same price; after that it is refused with 401 |
| OrderController.CreatedOrderReadById | src/routes/Order/controller.ts:59-149 | the user who placed an order reads it back by id, waiting, at its price, under its restaurant's name; any other user gets 401; an order placed without a session answers 404 to everyone |
| OrderController.CreatedOrderListedLast | src/routes/Order/controller.ts:86-149 | an order placed by a stored session user is listed last among that user's orders, after the ones listed before |
| OrderRoutes.CapabilityRoutesIgnoreSession | src/routes/Order/index.ts:7-47 | the token routes have no guards: the session token makes no difference |
| OrderRoutes.ReadByIdGuarded | src/routes/Order/index.ts:14-22 | reading by id answers 401 unless the token authenticates a CLIENT, who reaches the handler as themself |
| OrderRoutes.ForeignOrderIsUnauthorized | src/routes/Order/controller.ts:67-70 | a CLIENT reading another existing user's order gets 401 |
| OrderRoutes.ListMineGuarded | src/routes/Order/index.ts:24-32 | listing answers 401 unless the token authenticates a CLIENT, who gets that user's listing, 200 or 404, never unanswered |
| OrderRoutes.PlaceOwnership | src/routes/Order/index.ts:34-41 | placing an order always reaches the handler; the order is owned by the authenticated user or by nobody |
| OrderRoutes.TokenRoutesServe | src/routes/Order/index.ts:7-47 | the token routes run their handler on a fresh context, with the token read from the headers as the variant reads it |
| OrderRoutes.PlaceContext | src/routes/Order/index.ts:38-40 | the passthrough guard never stops order creation |
| OrderRoutes.AsWrittenReadByTokenRefuses | src/routes/Order/controller.ts:30-53 | as written, reading by token answers 401 whatever headers the client sends |
| OrderRoutes.AsWrittenPayByTokenRefuses | src/routes/Order/controller.ts:154-179 | as written, paying by token answers 401 whatever headers the client sends, and writes nothing |
| OrderRoutes.PlacedOrderReadableByHeader | src/routes/Order/controller.ts:30-54 | corrected, the token `create` returns, sent as `orderToken`, reads back the order `create` answered with, within the day |
| OrderRoutes.PlacedOrderPayableByHeader | src/routes/Order/controller.ts:154-180 | corrected, the same token pays the new order within the day: 200, the order PAID at the price it was placed at |
| OrderRoutes.OrderTokenListsFirstUsersOrders | src/routes/Order/index.ts:24-32 | as written, an order token lists the lowest-keyed user's orders when that user is a CLIENT; corrected, it gets 401 |
| CategoryController.InsertKeepsSorted | src/routes/Category/controller.ts:19 | inserting by creation time keeps a list sorted |
| CategoryController.SortByDate | src/routes/Category/controller.ts:19 | the sort is a permutation sorted by creation time |
| CategoryController.FormatCategory | src/routes/Category/controller.ts:16-20 | a formatted category keeps its id and name; an unloaded dish list formats as empty, a loaded one keeps its length |
| CategoryController.FormatCategoryOrdersDishes | src/routes/Category/controller.ts:19 | the formatted dishes are a sorted permutation of the loaded ones |
| CategoryController.OwnerOf | src/routes/Category/controller.ts:74-80 | an owner is found only through an existing restaurant to an existing user |
| CategoryController.Authorize | src/routes/Category/controller.ts:80 | granted iff the user is an ADMIN or owns the restaurant; denied iff a non-ADMIN user meets a different existing owner; otherwise the read through the relations throws |
| CategoryController.CategoriesOf | src/routes/Category/controller.ts:29-34 | exactly the categories of that restaurant, in key order |
| CategoryController.Get | src/routes/Category/controller.ts:24-39 | 404 iff the restaurant is unknown; otherwise every category of it in order, each with no dishes; nothing is written |
| CategoryController.Create | src/routes/Category/controller.ts:43-64 | 200 iff the restaurant exists and a name is given, saving exactly one new category attached to it; otherwise 404 with no write |
| CategoryController.CreatedCategoryListedLast | src/routes/Category/controller.ts:24-64 | a category created for a restaurant is listed last among its categories, after the ones listed before |
| CategoryController.Update | src/routes/Category/controller.ts:68-91 | 200 iff authorized, changing only the name and only when one is given; 403 iff denied; no write unless 200 |
| CategoryController.DishesOf | src/routes/Category/controller.ts:101-103 | exactly the dishes linked to that category |
| CategoryController.DeleteEach | src/routes/Category/controller.ts:108-110 | deleting the listed dishes removes exactly their keys and leaves the other rows as they were |
| CategoryController.Del | src/routes/Category/controller.ts:95-120 | as written, 404 with no write for every request; corrected, 200 iff authorized, removing the category and exactly its dishes and nothing else; 403 iff denied; no write unless 200 |
| CategoryController.DelLeavesNoOrphans | src/routes/Category/controller.ts:107-111 | after a delete no dish refers to the deleted category |
| CategoryController.AdminCannotDeleteAsWritten | src/routes/Category/controller.ts:101-103 | an ADMIN's delete of an existing category succeeds corrected, and answers 404 with no write as written |
| CategoryRoutes.GuardTable | src/routes/Category/index.ts:6-52 | listing has no guards; create, update and delete run `checkLogin()` then `checkRole([PRO, ADMIN])` |
| CategoryRoutes.ListIgnoresSession | src/routes/Category/index.ts:7-12 | listing categories gives the same answer whatever the session token |
| CategoryRoutes.ManagementGuarded | src/routes/Category/index.ts:13-51 | management answers 401 with no write unless the token authenticates a PRO or ADMIN, who reaches the handler as themself |
| CategoryRoutes.NonOwnerProForbidden | src/routes/Category/controller.ts:80-86 | a PRO who does not own the restaurant gets 403 on rename (and on delete corrected; 404 as written), and nothing is written |
| CategoryRoutes.AdminManagesAnyCategory | src/routes/Category/controller.ts:80-120 | an ADMIN may rename any existing category, and delete it corrected; as written the delete answers 404 |
| CategoryRoutes.OrderTokenRenamesAnyCategory | src/routes/Category/index.ts:28-39 | as written, an order token renames any category when the lowest-keyed user is an ADMIN; corrected, it gets 401 |
| UserController.FindByEmail | src/routes/User/controller.ts:23-27 | the query finds a user with that email iff one exists |
| UserController.Login | src/routes/User/controller.ts:18-44 | 500 iff the email or password is missing or the email is unknown; 401 with a message iff the password is wrong; otherwise 200 with a fresh session token in body and header; nothing is written |
| UserController.Register | src/routes/User/controller.ts:48-77 | 201 iff every field is present and the email is free, saving one user with the hashed password and the requested or default type, echoing the submitted fields with a token; otherwise 409 with no write |
| UserController.RegisterKeepsEmailsUnique | src/entities/User.ts:19-20 | registration keeps emails unique |
| UserController.RegisterThenLogin | src/routes/User/controller.ts:18-77 | after registering, logging in with the same email finds the new user, succeeds with the same password and answers 401 to any other |
| UserController.Get | src/routes/User/controller.ts:81-99 | unanswered without a payload; 404 iff the payload loads no user; otherwise 200 with that user's profile and a refreshed token; nothing is written |
| UserController.OrderTokenDeletesFirstUser | src/routes/User/controller.ts:103-114 | as written, an order token passes `DELETE /user`'s `checkLogin()` and `del` removes the lowest-keyed user; corrected, the token is answered 401 before `del` runs |
| UserController.RegisterThenGet | src/routes/User/controller.ts:48-99 | the token registration returns reads back the submitted profile, with the stored type, for seven days |
| UserController.Del | src/routes/User/controller.ts:103-114 | unanswered without a payload; 404 iff the payload loads no user; otherwise exactly that user is removed and the reply is 204 |
| UserController.DelThenLoggedOut | src/routes/User/controller.ts:103-114 | after deleting an account none of its session tokens authenticates, and logging in with its email answers 500 |
| DishReviewController.FormatReview | src/routes/DishReview/controller.ts:16-22 | a formatted review keeps the review's fields and shows its author's display name |
| DishReviewController.ReviewsOf | src/routes/DishReview/controller.ts:31-34 | exactly the reviews of that dish, in key order |
| DishReviewController.Get | src/routes/DishReview/controller.ts:26-41 | 200 iff the dish exists and every review's author loads, listing one formatted entry per review in order; otherwise 404; nothing is written |
| DishReviewController.Create | src/routes/DishReview/controller.ts:45-67 | an unknown dish, a missing note or text, or a note that does not fit a 32-bit `integer` answers 404 with no write; otherwise the review is saved under the next key; 200 iff a session user is bound, and without one it is 404 after the write |
| DishReviewController.CreatedReviewListedLast | src/routes/DishReview/controller.ts:26-67 | a review created by an existing user is listed last among its dish's reviews, after those listed before |

## Left out

- The server bootstrap, the database connection, the WebSocket setup and the keep-alive ping in `src/index.ts` are I/O, and are not modelled.
- The Restaurant and Dish controllers and route tables are not modelled. `formatDishReturn` appears only as the `DishView` shape.
- The User and DishReview route tables are not modelled. Their handlers are modelled with the context as a parameter; UserController.OrderTokenDeletesFirstUser composes `DELETE /user`'s one guard, `checkLogin()`, with `del` directly.
- UserController.Get: models `get` (src/routes/User/controller.ts:81-99), which no route in src/routes/User/index.ts reaches; only `POST /auth`, `POST /user` and `DELETE /user` are routed.
- Http.Send: replies sent with `res.sendStatus`, and the guards' 401 replies (src/routes/auth.ts:24, :27, :51), carry a text body in Express: the status phrase, or the guard's message. The model gives them no body; it keeps the message bodies only where a handler sends JSON or a login or registration message.
- Cryptography is ideal. Token signatures, the secret, bcrypt's cost factor and random salts are abstracted away; the salt is a parameter.
- Wall-clock time is a parameter. Token lifetimes are in whole seconds, and `createdAt` is an integer.
- `updatedAt` columns are not modelled: no handler reads them.
- `select: false` on the password column is not modelled: no reply carries the password.
- Path and body ids are integers. Missing or non-numeric ids, non-integer notes and malformed JSON bodies are not modelled.
- A `type` string that is not a role is not modelled: registration takes an optional role.
- Serial keys are unbounded. PostgreSQL's `serial` columns stop at 2^31-1.
- The process exit that an unhandled rejection causes on Node 15 and later is not modelled: `Unanswered` records only that no response is sent.
- Schema.Dish: the `category` link is the one the corrected program adds (see Findings). No modelled handler sets it; the Dish controller, which would, is not part of this model.
- UserEntity.Initial: takes the first Unicode scalar value of the last name. JavaScript's `lastname?.[0]` takes the first UTF-16 code unit, which for a character outside the Basic Multilingual Plane is a lone high surrogate, and a Dafny string cannot hold one.
- UserEntity.GetNameShape: for the same reason, the character it places after the space is a whole scalar value where the code shows one UTF-16 code unit.
- UserEntity.GetNameDecidedByInitial: does not hold of the code for last names that start with two different characters sharing a high surrogate, such as "😀a" and "😁b": the code renders both initials as the same lone surrogate.
- Headers.Receive: a header field sent twice keeps only the last value. Node would join the two values with a comma, and that joined value would not verify as a token.
- The `authorization` header is taken as the token it carries. How that header reaches the request is not modelled.
- The order of listed relations is ascending primary key, and so is the "first row" of a query without a condition. PostgreSQL does not guarantee an order without `ORDER BY`.
- Concurrency and interleaving of requests are not modelled. `Promise.all` over the dish deletes in category delete is modelled as sequential deletes; when every delete succeeds, the end state is the same.
- UserController.Del: foreign-key constraints are not modelled. PostgreSQL refuses to remove a user whose orders or reviews still reference them, and the handler then answers 404.
- CategoryController.Del: foreign-key constraints are not modelled. A dish that an order's dish join row or a review (`DishReview.dish`) still references cannot be deleted; the deletes that already succeeded stay done, and the handler answers 404. The corrected model deletes every dish of the category.
- Create in the order, category and review handlers first saves and then answers. A database failure between those steps is not modelled.

## Findings

| source | as written | input that shows it | evidently intended | confidence | as-written member | corrected member |
|---|---|---|---|---|---|---|
| src/routes/Order/controller.ts:33 | `getByToken` reads the order token from `req.headers['orderToken']` | any request; a client sending the header `orderToken` with the token `create` returned gets 401, because Node stores the field under `ordertoken` | read the token from the header the client sent, under its lower-cased name | high; not executed | OrderRoutes.AsWrittenReadByTokenRefuses | OrderRoutes.PlacedOrderReadableByHeader |
| src/routes/Order/controller.ts:157 | `pay` reads the order token the same way | as above; every payment answers 401 and nothing is marked paid | as above | high; not executed | OrderRoutes.AsWrittenPayByTokenRefuses | OrderRoutes.PlacedOrderPayableByHeader |
| src/routes/auth.ts:41 | `checkLogin` loads `findOneOrFail(userId)`; an order token's payload has no `userId`, and TypeORM 0.2 (the `getRepository` and `findByIds` API the code uses) loads the first user for an `undefined` id | the order token `POST /order` hands to any caller, sent as `authorization`: it authenticates as the lowest-keyed user, and the reply carries that user's seven-day session token; on `DELETE /user`, guarded by `checkLogin()` alone, `del`'s own `findOneOrFail(jwtPayload.userId)` (src/routes/User/controller.ts:104-108) then loads and removes that user (UserController.OrderTokenDeletesFirstUser) | only a session token authenticates, as the user it names | high; not executed | Auth.OrderTokenAuthenticatesFirstUser | Auth.OnlySessionTokensAuthenticate |
| src/routes/auth.ts:18 | `checkRole` loads the user the same way | the same token on `PUT /category/:id` when the lowest-keyed user is an ADMIN: both guards pass and any category is renamed | an order token is refused with 401 | high; not executed | Auth.OrderTokenPassesAsFirstUser | Auth.CorrectedRefusesOrderTokens |
| src/routes/Order/controller.ts:38-39 | `getByToken` and `pay` load `findOneOrFail(restaurantId)` and `findOneOrFail(id)` from the verified payload, whatever kind of token it is | a session token presented as the order token reads and pays the lowest-keyed order; reachable once the header is read under its lower-cased name | only an order token redeems | high; not executed | OrderController.SessionTokenRedeemsFirstOrder | OrderController.OnlyOrderTokensRedeem |
| src/routes/Category/controller.ts:101-103 | `del` loads the category with `relations: [..., 'dishes']`, but `Category.dishes` names the inverse `relation.category`, which `Dish` does not declare, so the join cannot be built and the query throws | any `DELETE /category/:id`, even by an ADMIN for an existing category, answers 404 and deletes nothing | `Dish` declares the many-to-one `category` relation, and `del` deletes the category's dishes and then the category | medium; not executed | CategoryController.AdminCannotDeleteAsWritten | CategoryController.DelLeavesNoOrphans |

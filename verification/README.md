# Loca marketplace core, modelled in Dafny

Loca is a neighbourhood marketplace. Users register, list products for sale,
post jobs and post requests, and contact one another through WhatsApp links.
This project models the parts of it that are pure logic:

- the shared insert validators for users, products, jobs and requests (`Schema`);
- the API endpoint table and `buildUrl` (`ApiRoutes`);
- the database storage, as four serial-keyed tables held as maps with an id
  counter (`Table`, `Storage`);
- the server's route handlers, as one pure transition
  `Handle(session, call, store, fault) -> (response, store')`, plus the
  idempotent demo `seed` (`Server`);
- the client helpers:
  - the search filter, the "nothing found" notice, the WhatsApp links and the
    budget badge of the three listing pages (`Listings`);
  - the dashboard's owner filters and subtitles (`Home`);
  - the bottom bar's `isActive` rule (`BottomNav`);
  - the sign-in page's error routing (`AuthPage`);
  - the create dialogs' price-key filter, default values and submit flow
    (`CreateModals`).

General helpers live in `Wrappers` (`Option`, `Result`), `Text` (ASCII case
mapping, `includes`/`indexOf`/`replace`, character classes, decimal text) and
`Seqs` (`filter` and the subsequence relation).

Modelling conventions:

- A JSON body or form value is a datatype whose components are `Option`s.
  `None` stands for a missing or `null` value.
- A validator returns the set of `Issue(field, message)` it reports.
- A storage write returns a `Result`. A failed write leaves the store as it was.
- A thrown database error in a handler is the `fault` parameter.
- The session and the password hash come from code outside this model, so
  they are parameters.

Behaviour of the source worth knowing, each proved below:

- The server never runs the insert schemas.
- `seed()` awaits each insert, so the first one that throws ends it.
- A string parameter of `buildUrl` is a `replace` pattern: `$&`, `$$`, `` $` `` and `$'` are expanded.
- Delete checks only that a session exists, not who owns the row.
- The seeded demo password "password" breaks the password rule. The login form
  applies that rule, so the demo account cannot sign in through the form.
- `buildUrl` matches `:key` without anchoring, so the key `i` captures `:id`.
- The nav prefix test has no separator check: "/jobsboard" highlights Jobs.

## Model

| member | source | states |
|---|---|---|
| Schema.UsernameIssues | Community-Market/shared/schema.ts:64-67 | each username rule reports its own message exactly when violated: shorter than 3, longer than 20, empty or holding a character outside `[a-zA-Z0-9_]` |
| Schema.PasswordIssues | Community-Market/shared/schema.ts:68-71 | each password rule reports its own message exactly when violated: shorter than 6, no `A-Z`, no `0-9` |
| Schema.PriceIssues | Community-Market/shared/schema.ts:77 | over exact numbers, the price passes iff it is at least 1 |
| Schema.TitleIssues | Community-Market/shared/schema.ts:78 | the title passes iff it has at least 3 characters, else the title message |
| Schema.DescriptionIssues | Community-Market/shared/schema.ts:79 | the description passes iff it has at least 10 characters, else the description message |
| Schema.ValidateUser | Community-Market/shared/schema.ts:62-72 | a missing field reports "Required"; a present one reports exactly its field rules; issues name only username and password |
| Schema.ValidateProduct | Community-Market/shared/schema.ts:74-80 | a missing field reports "Required"; a present title, description or price reports exactly its rules, and a present image or whatsapp reports nothing; no issue names an id or the seller, which the schema omits |
| Schema.ValidateJob | Community-Market/shared/schema.ts:82-87 | a missing title or description reports "Required", a present one exactly its rules; salary and whatsapp can fail only as "Required" |
| Schema.ValidateRequest | Community-Market/shared/schema.ts:89-94 | a missing title or description reports "Required", a present one exactly its rules; only they can fail; the nullable budget never does |
| Schema.UsernameAccepted | Community-Market/shared/schema.ts:64-67 | a username is accepted iff it has 3 to 20 characters, all ASCII letters, digits or `_` |
| Schema.PasswordAccepted | Community-Market/shared/schema.ts:68-71 | a password is accepted iff it has 6 or more characters, an upper-case letter and a digit; nothing else is demanded |
| Schema.UserAccepted | Community-Market/shared/schema.ts:62-72 | a user input passes iff both fields are present and valid |
| Schema.ProductAccepted | Community-Market/shared/schema.ts:74-80 | a product input passes iff all five columns are present, title ≥ 3, description ≥ 10 and price ≥ 1 |
| Schema.JobAccepted | Community-Market/shared/schema.ts:82-87 | a job input passes iff all four columns are present, title ≥ 3 and description ≥ 10 |
| Schema.RequestAccepted | Community-Market/shared/schema.ts:89-94 | a request input passes iff title ≥ 3 and description ≥ 10, whether or not a budget is given |
| Schema.PriceBelowOneRefused | Community-Market/shared/schema.ts:77 | every price strictly between 0 and 1 is refused, although the message promises only "greater than 0" |
| ApiRoutes.Api | Community-Market/shared/routes.ts:55-130 | the nine verb and path pairs of the product, job and request endpoints, as written; their regularity is `ResourcePaths` |
| ApiRoutes.Collection | Community-Market/shared/routes.ts:55-57 | the list path of each resource, `/api/products`, `/api/jobs` or `/api/requests` |
| ApiRoutes.ResourcePaths | Community-Market/shared/routes.ts:55-130 | the written table is regular: each resource lists with GET under `/api/`, creates with POST on the list path, and deletes with DELETE on the list path plus `/:id` |
| ApiRoutes.EndpointsDistinct | Community-Market/shared/routes.ts:55-130 | no two entries of the table share both verb and path, so each request reaches exactly one handler |
| ApiRoutes.Substitute | Community-Market/shared/routes.ts:138-140 | a parameter whose `:key` is absent changes nothing; otherwise only the first occurrence is replaced, by the value's text with its `$` patterns expanded against that match |
| Text.ReplaceFirst | Community-Market/shared/routes.ts:139 | `replace` with a string pattern rewrites only the first occurrence, after which no earlier occurrence exists; without one the string is unchanged |
| Text.ExpandPlain | Community-Market/shared/routes.ts:139 | a replacement holding no `$` is inserted exactly as written |
| Text.ExpandPatterns | Community-Market/shared/routes.ts:139 | `$$` inserts `$`, `$&` the match, `` $` `` the text before it and `$'` the text after it |
| ApiRoutes.SubstituteAll | Community-Market/shared/routes.ts:137-141 | when no parameter's placeholder occurs, the url is returned unchanged |
| ApiRoutes.SubstituteAllConcat | Community-Market/shared/routes.ts:137-141 | the `forEach` over two runs of entries is the run over the first, then over the second |
| ApiRoutes.DropAbsentEntry | Community-Market/shared/routes.ts:137-141 | an entry whose placeholder is absent from the url at its turn can be dropped without changing the result |
| ApiRoutes.ValueIntroducesPlaceholder | Community-Market/shared/routes.ts:137-141 | a value can bring in a placeholder that a later entry then fills: `{k1: ":k2", k2: n}` on a path ending in `:k1` gives the path's prefix and the text of `n` |
| ApiRoutes.BuildUrlAfterPlainPrefix | Community-Market/shared/routes.ts:137-143 | one parameter whose `:key` follows a prefix without `:` replaces exactly that placeholder, by the value's text with `$` patterns expanded; a `$`-free value, such as any number, is inserted as written |
| ApiRoutes.NumDollarFree | Community-Market/shared/routes.ts:139 | the text of a number holds no `$`, so a numeric value is never read as a pattern |
| ApiRoutes.DollarMatchKeepsPlaceholder | Community-Market/shared/routes.ts:139 | a string id `"$&"` puts the matched `:id` back, so the delete path comes out unchanged |
| ApiRoutes.BuildUrl | Community-Market/shared/routes.ts:134-144 | without parameters, or with none, the path is returned unchanged |
| ApiRoutes.BuildUrlIgnoresAbsent | Community-Market/shared/routes.ts:134-143 | when no parameter's `:key` occurs in the path, the path comes back unchanged, placeholders included |
| ApiRoutes.DeleteUrl | Community-Market/shared/routes.ts:73 | filling `:id` with `n` in a delete path gives the list path, `/` and the decimal text of `n` |
| ApiRoutes.DeleteUrlRoundTrip | Community-Market/server/routes.ts:96 | the server's `parseInt` of the id segment of a built delete URL gives back the id the client put in |
| ApiRoutes.ShorterKeyCapturesPlaceholder | Community-Market/shared/routes.ts:138-139 | the unanchored match lets key `i` rewrite `:id`: every delete path with `{i: n}` becomes the list path, `/`, `n` and a stray `d` |
| ApiRoutes.LoginEnforcesRegistrationRules | Community-Market/shared/routes.ts:33 | the login input, a pick of the user schema, accepts exactly what registration accepts |
| Table.Insert | Community-Market/shared/schema.ts:7 | an insert stores the row under an id no stored row has, keeps the table valid and returns the stored row |
| Table.Delete | Community-Market/server/storage.ts:60-62 | a delete removes exactly that id and keeps every other row |
| Table.RowsBetween | Community-Market/server/storage.ts:51-53 | the listing holds every stored row in the id range, nothing else, in ascending id order |
| Table.AllIsRows | Community-Market/server/storage.ts:51-53 | listing a valid table returns exactly its rows |
| Table.InsertThenAll | Community-Market/server/storage.ts:51-58 | after an insert the listing holds the new row and every earlier row, and nothing else |
| Table.DeleteThenAll | Community-Market/server/storage.ts:51-62 | after a delete the listing is the old listing without that id |
| Storage.GetUser | Community-Market/server/storage.ts:35-38 | the user with that id, or nothing when no row has it |
| Storage.FindByUsername | Community-Market/server/storage.ts:40-43 | a found user is listed and has the name; nothing found means no listed user has it |
| Storage.GetUserByUsername | Community-Market/server/storage.ts:40-43 | the first listed user with that name; pinned by `FindByUsername` and `GetUserByUsernameIff` |
| Storage.GetUserByUsernameIff | Community-Market/server/storage.ts:40-43 | in a valid store the lookup returns exactly the stored user of that name, or nothing iff there is none |
| Storage.CreateUser | Community-Market/server/storage.ts:45-48 | a taken username fails with the unique-constraint message; otherwise the user is stored under a fresh id and the other tables are unchanged |
| Storage.CreateUserTwiceFails | Community-Market/shared/schema.ts:8 | registering a name a second time fails |
| Storage.GetProducts | Community-Market/server/storage.ts:51-53 | every stored product is listed, unfiltered, and nothing else |
| Storage.CreateProduct | Community-Market/server/storage.ts:55-58 | a missing not-null column fails with the database's message; otherwise the input columns and seller are stored unchanged under a fresh id, touching no other table |
| Storage.DeleteProduct | Community-Market/server/storage.ts:60-62 | removes exactly that id; an absent id changes nothing; other tables unchanged |
| Storage.GetJobs | Community-Market/server/storage.ts:65-67 | every stored job is listed, unfiltered, and nothing else |
| Storage.CreateJob | Community-Market/server/storage.ts:69-72 | a missing not-null column fails; otherwise the input columns and employer are stored under a fresh id, touching no other table |
| Storage.DeleteJob | Community-Market/server/storage.ts:74-76 | removes exactly that id; an absent id changes nothing; other tables unchanged |
| Storage.GetRequests | Community-Market/server/storage.ts:79-81 | every stored request is listed, unfiltered, and nothing else |
| Storage.CreateRequest | Community-Market/server/storage.ts:83-86 | a missing title or description fails; otherwise the request is stored, with a missing budget as NULL, under a fresh id, touching no other table |
| Storage.DeleteRequest | Community-Market/server/storage.ts:88-90 | removes exactly that id; an absent id changes nothing; other tables unchanged |
| Storage.ProductNullColumn | Community-Market/shared/schema.ts:12-20 | an insert violates no not-null column iff all five product columns are given |
| Storage.JobNullColumn | Community-Market/shared/schema.ts:22-29 | an insert violates no not-null column iff all four job columns are given |
| Storage.RequestNullColumn | Community-Market/shared/schema.ts:31-37 | only a missing title or description violates a not-null column |
| Storage.CreateProductThenList | Community-Market/server/storage.ts:51-58 | after `createProduct` the next listing holds the returned row and every earlier one |
| Storage.DeleteProductThenList | Community-Market/server/storage.ts:51-62 | after `deleteProduct(id)` no listed product has that id, and every other one is still listed |
| Storage.CreateJobThenList | Community-Market/server/storage.ts:65-72 | after `createJob` the next listing holds the returned row and every earlier one |
| Storage.DeleteJobThenList | Community-Market/server/storage.ts:65-76 | after `deleteJob(id)` no listed job has that id, and every other one is still listed |
| Storage.CreateRequestThenList | Community-Market/server/storage.ts:79-86 | after `createRequest` the next listing holds the returned row and every earlier one |
| Storage.DeleteRequestThenList | Community-Market/server/storage.ts:79-90 | after `deleteRequest(id)` no listed request has that id, and every other one is still listed |
| Server.Handle | Community-Market/server/routes.ts:67-176 | an anonymous create or delete gets 401 "Authentication required" with the store unchanged; the status is one of 200, 201, 400, 401, 500; no failure changes the store; 201 only for a signed-in, fault-free create; 400 only for a signed-in create or delete; store validity is kept |
| Server.ListNeedsNoAuth | Community-Market/server/routes.ts:68-76 | a list answers 200 with the whole table, whether or not a session exists |
| Server.CreateProductStampsOwner | Community-Market/server/routes.ts:78-91 | a complete product body is stored with the session user as seller and answered 201 with the stored row, which the next listing holds |
| Server.CreateJobStampsOwner | Community-Market/server/routes.ts:115-128 | a complete job body is stored with the session user as employer and answered 201 with the stored row |
| Server.CreateRequestStampsOwner | Community-Market/server/routes.ts:152-165 | a request body with title and description is stored with the session user as requester and answered 201 |
| Server.SpreadOwner | Community-Market/server/routes.ts:82-85 | in `{ ...req.body, sellerId: req.user.id }` the later session entry wins over any owner key the body sends |
| Server.ClaimedOwnerIgnored | Community-Market/server/routes.ts:82-85 | an owner id in the body has no effect on the response or the store, for all three creates |
| Server.CreateSkipsValidation | Community-Market/server/routes.ts:82-86 | a body the product schema refuses on three fields is still stored with 201 |
| Server.CreateMissingColumnIs400 | Community-Market/server/routes.ts:87-90 | a body missing a not-null column gets 400 with the database's message and the store unchanged |
| Server.DeleteWithoutOwnershipCheck | Community-Market/server/routes.ts:93-102 | any signed-in user's delete of any id answers 200, also for another user's row or an absent id, and removes exactly that id |
| Server.FaultIs400 | Community-Market/server/routes.ts:87-101 | a storage failure on create or delete answers 400 with its message, or the resource's fallback when the message is empty |
| Server.InsertProducts | Community-Market/server/routes.ts:17-33 | awaited product inserts touch only the products table and keep the store valid; the run completes iff every body fills every not-null column, and stops at the first that does not |
| Server.InsertProductsGrows | Community-Market/server/routes.ts:17-33 | inserting complete products one by one adds exactly one row per product, each sold by the given user, and keeps every earlier row unchanged |
| Server.InsertJobs | Community-Market/server/routes.ts:35-49 | awaited job inserts touch only the jobs table and keep the store valid; the run completes iff every body fills every not-null column, and stops at the first that does not |
| Server.InsertJobsGrows | Community-Market/server/routes.ts:35-49 | inserting complete jobs one by one adds exactly one row per job, each offered by the given user, and keeps every earlier row unchanged |
| Server.DemoInputsComplete | Community-Market/server/routes.ts:17-56 | every seeded body fills every not-null column |
| Server.SeedListings | Community-Market/server/routes.ts:17-56 | the listings are written in source order and the first throwing insert ends the run; its effects are stated by the three lemmas below and `SeedListingsWrites` |
| Server.FailedProductStopsSeed | Community-Market/server/routes.ts:17-56 | a product that fails to insert leaves the jobs and requests tables untouched |
| Server.FailedJobStopsSeed | Community-Market/server/routes.ts:35-56 | a job that fails to insert leaves the requests table untouched |
| Server.FailedFirstProductWritesNothing | Community-Market/server/routes.ts:17-24 | when the first product throws, the listings write nothing at all |
| Server.SeedListingsWrites | Community-Market/server/routes.ts:17-56 | two complete products, two complete jobs and a complete request are all written, owned by the given user, with the users table untouched |
| Server.SeedWithWrites | Community-Market/server/routes.ts:8-57 | for any complete listings, seeding a store without "demo" adds that user with the given hash, and adds 2 products, 2 jobs and 1 request owned by it |
| Server.SeedWithIdempotent | Community-Market/server/routes.ts:9-10 | whatever the listings, a second seeding finds "demo" and writes nothing |
| Server.Seed | Community-Market/server/routes.ts:8-57 | `seed()` with the demo listings; its effects are `SeedWrites` and `SeedIdempotent` |
| Server.SeedWrites | Community-Market/server/routes.ts:8-57 | without "demo", seeding adds that user and exactly 2 products, 2 jobs and 1 request, all owned by it |
| Server.SeedIdempotent | Community-Market/server/routes.ts:9-10 | seeding a second time writes nothing |
| Server.SeedPasswordBreaksRules | Community-Market/server/routes.ts:11 | the seeded raw password lacks an upper-case letter and a digit, so the password rule refuses it |
| Listings.MatchesSearch | Community-Market/client/src/pages/Products.tsx:19-20 | the lower-cased title or description includes the lower-cased term |
| Listings.SearchFilter | Community-Market/client/src/pages/Products.tsx:18-21 | an unfetched list stays unfetched; a kept row is an input row that matches; every matching row is kept; order is preserved |
| Listings.FilteredProducts | Community-Market/client/src/pages/Products.tsx:18-21 | a product is kept iff its lower-cased title or description includes the lower-cased term, as an order-preserving subsequence |
| Listings.FilteredJobs | Community-Market/client/src/pages/Jobs.tsx:18-21 | a job is kept iff its lower-cased title or description includes the lower-cased term, as an order-preserving subsequence |
| Listings.FilteredRequests | Community-Market/client/src/pages/Requests.tsx:18-21 | a request is kept iff its lower-cased title or description includes the lower-cased term, as an order-preserving subsequence |
| Listings.EmptySearchMatches | Community-Market/client/src/pages/Products.tsx:19-20 | the empty term matches every title |
| Listings.EmptySearchKeepsAll | Community-Market/client/src/pages/Jobs.tsx:18-21 | the empty term keeps the whole list |
| Listings.MatchesSearchIgnoresCase | Community-Market/client/src/pages/Requests.tsx:19-20 | upper-casing the term, or the title and description, does not change the match |
| Listings.SearchIgnoresCase | Community-Market/client/src/pages/Products.tsx:18-21 | typing the term in capitals keeps the same rows |
| Listings.NoResultsIffNothingMatches | Community-Market/client/src/pages/Products.tsx:48 | the notice shows iff loading is over, the list has arrived, and no row matches |
| Listings.ParseContactUrl | Community-Market/client/src/pages/Products.tsx:62 | whatever it reads back from a link rebuilds that link exactly |
| Listings.ProductContactUrl | Community-Market/client/src/pages/Products.tsx:62 | the product card's wa.me link; read back by `ProductContactUrlRoundTrip` |
| Listings.JobContactUrl | Community-Market/client/src/pages/Jobs.tsx:62 | the job card's wa.me link; read back by `JobContactUrlRoundTrip` |
| Listings.ContactUrlRoundTrip | Community-Market/client/src/pages/Jobs.tsx:62 | a link built from a number without `?` reads back as that number and the title verbatim |
| Listings.ProductContactUrlRoundTrip | Community-Market/client/src/pages/Products.tsx:62 | the product link is the base, number, fixed lead, unescaped title and fixed tail, recoverable in that order |
| Listings.JobContactUrlRoundTrip | Community-Market/client/src/pages/Jobs.tsx:62 | the job link carries the title between double quotes, recoverable verbatim |
| Listings.QuestionMarkInNumberIsNotEscaped | Community-Market/client/src/pages/Products.tsx:62 | nothing is escaped: the number read back stops at the first `?`, so no number holding `?` is recovered from its own link |
| Listings.BudgetBadge | Community-Market/client/src/pages/Requests.tsx:63 | the badge is shown iff the budget is present and non-empty, and shows the budget |
| Home.HomeView | Community-Market/client/src/pages/Home.tsx:18-20 | a signed-in user gets that user's dashboard; otherwise the landing page |
| Home.Mine | Community-Market/client/src/pages/Home.tsx:168-170 | an unfetched list gives `[]`; otherwise the rows the user owns, all of them, in order |
| Home.MyProducts | Community-Market/client/src/pages/Home.tsx:168 | the user's products are exactly the fetched ones whose seller is the user, in order |
| Home.MyJobs | Community-Market/client/src/pages/Home.tsx:169 | the user's jobs are exactly the fetched ones whose employer is the user, in order |
| Home.MyRequests | Community-Market/client/src/pages/Home.tsx:170 | the user's requests are exactly the fetched ones whose requester is the user, in order |
| Home.MyProductsOfStore | Community-Market/client/src/pages/Home.tsx:168 | over a fetched table, the tab holds exactly the stored rows the user sells |
| Home.CreatedProductIsMine | Community-Market/client/src/pages/Home.tsx:163-168 | a product the user lists through the server appears in that user's tab after the refetch |
| Home.EmptyStateIffNoneOwned | Community-Market/client/src/pages/Home.tsx:212 | the empty-state message shows iff the list is unfetched or the user owns none of its rows |
| Home.ProductSubtitle | Community-Market/client/src/pages/Home.tsx:217 | the subtitle starts with `R` and has at least one character after it |
| Home.ProductSubtitleRoundTrip | Community-Market/client/src/pages/Home.tsx:217 | the price reads back from the text after `R`, so distinct prices give distinct subtitles |
| Home.RequestSubtitle | Community-Market/client/src/pages/Home.tsx:243 | "Budget: " and the budget when it is truthy, else "No budget specified"; read back by the next lemma |
| Home.RequestSubtitleReadBack | Community-Market/client/src/pages/Home.tsx:243 | the subtitle starts with "Budget: " iff the budget is present and non-empty, and the rest is the budget |
| Home.RequestSubtitleAgreesWithBadge | Community-Market/client/src/pages/Home.tsx:243 | the dashboard names a budget exactly when the requests page shows its badge, with the same text |
| BottomNav.IsActive | Community-Market/client/src/components/BottomNav.tsx:18 | the `isActive` expression with JavaScript's precedence; its meaning is `IsActiveSimplified` and `IsActiveIffSection` |
| BottomNav.IsActiveSimplified | Community-Market/client/src/components/BottomNav.tsx:18 | an item is active iff the location equals its href, or the href is not `/` and starts the location |
| BottomNav.HomeActiveIffRoot | Community-Market/client/src/components/BottomNav.tsx:18 | Home is active iff the location is exactly `/` |
| BottomNav.IsActiveIffSection | Community-Market/client/src/components/BottomNav.tsx:7-18 | for each of the four items, it is active iff it is the location's section |
| BottomNav.AtMostOneActive | Community-Market/client/src/components/BottomNav.tsx:7-18 | no two items are active at once |
| BottomNav.SubPathActivatesProducts | Community-Market/client/src/components/BottomNav.tsx:18 | "/products/7" activates Products |
| BottomNav.JobsboardActivatesJobs | Community-Market/client/src/components/BottomNav.tsx:18 | the prefix test has no separator check: "/jobsboard" activates Jobs |
| BottomNav.AuthActivatesNone | Community-Market/client/src/components/BottomNav.tsx:7-18 | "/auth" activates no item |
| AuthPage.LoginErrorRoute | Community-Market/client/src/pages/Auth.tsx:30-36 | a message including "username" goes verbatim to the username field; any other becomes "Invalid credentials" on the password field |
| AuthPage.RegisterErrorRoute | Community-Market/client/src/pages/Auth.tsx:43-49 | a message including "username" becomes the fixed unavailable-username text on the username field; any other goes verbatim to the root error |
| AuthPage.LoginErrorRouteStable | Community-Market/client/src/pages/Auth.tsx:31-34 | re-routing the shown login error sends it to the same field with the same text |
| AuthPage.UsernameUnavailableNotRoutedToUsername | Community-Market/client/src/pages/Auth.tsx:44-45 | the case-sensitive test does not find "username" in the fixed "Username already exists…" text |
| AuthPage.SubmitLogin | Community-Market/client/src/pages/Auth.tsx:19-38 | the form is blocked with the schema's issues iff the user schema refuses it; a sent form starts from cleared errors and ends with no error or exactly the routed one |
| AuthPage.SubmitRegister | Community-Market/client/src/pages/Auth.tsx:23-51 | the same for registration, with the registration routing |
| AuthPage.LoginBlockedIffRegisterBlocked | Community-Market/client/src/pages/Auth.tsx:19-25 | both forms block exactly the same inputs: those with a missing or invalid username or password |
| AuthPage.ErrorPlacement | Community-Market/client/src/pages/Auth.tsx:27-51 | a failed login never sets the root error; a failed registration never marks the password |
| AuthPage.DemoLoginBlocked | Community-Market/client/src/pages/Auth.tsx:19-21 | the seeded "demo"/"password" login is blocked before any request, for lacking an upper-case letter and a digit |
| CreateModals.PriceKeyAllowed | Community-Market/client/src/components/CreateModals.tsx:76 | the `onKeyDown` test: the unanchored class `[0-9.]` or one of five editing keys; pinned by the three lemmas below |
| CreateModals.SingleCharKeyAllowedIff | Community-Market/client/src/components/CreateModals.tsx:76-78 | a one-character key passes iff it is a digit or `.` |
| CreateModals.SignExponentEnterBlocked | Community-Market/client/src/components/CreateModals.tsx:76-78 | `-`, `+`, `e`, `E` and Enter are blocked |
| CreateModals.FunctionKeyAllowed | Community-Market/client/src/components/CreateModals.tsx:76 | the unanchored class lets "F5" through |
| CreateModals.Typed | Community-Market/client/src/components/CreateModals.tsx:75-79 | whatever printable keys are pressed, the text they leave holds only digits and dots |
| CreateModals.ProductDefaultsIssues | Community-Market/client/src/components/CreateModals.tsx:20-25 | the `defaultValues` object on its own, with price undefined and the placeholder image, is refused for title, description, price and whatsapp only |
| CreateModals.UntouchedProductIssues | Community-Market/client/src/components/CreateModals.tsx:56-108 | an untouched product dialog submits empty strings from its registered inputs, so it shows the title and description length messages and the price's own issue; the empty WhatsApp number passes |
| CreateModals.UntouchedJobIssues | Community-Market/client/src/components/CreateModals.tsx:155-187 | an untouched job dialog is refused for the title and description lengths only; empty salary and WhatsApp pass |
| CreateModals.UntouchedRequestIssues | Community-Market/client/src/components/CreateModals.tsx:239-266 | an untouched request dialog is refused for the title and description lengths only; an empty budget passes |
| CreateModals.Submit | Community-Market/client/src/components/CreateModals.tsx:28-38 | a schema-refused form is blocked; on success the dialog closes, the form resets and a success toast shows; on failure it stays open with the values kept and a toast with the message, or the fallback when the message is empty |
| CreateModals.SubmitProduct | Community-Market/client/src/components/CreateModals.tsx:28-38 | the product dialog's submit with its schema, defaults and texts |
| CreateModals.SubmitJob | Community-Market/client/src/components/CreateModals.tsx:127-137 | the job dialog's submit with its schema and texts |
| CreateModals.SubmitRequest | Community-Market/client/src/components/CreateModals.tsx:211-221 | the request dialog's submit with its schema and texts |
| CreateModals.ProductFormSendsIffAccepted | Community-Market/client/src/components/CreateModals.tsx:20-21 | the product dialog sends exactly the bodies the product schema accepts |
| CreateModals.HookReply | Community-Market/client/src/hooks/use-jobs.ts:24 | a non-2xx reply rejects with the hook's fixed, non-empty "Failed to create …" message |
| CreateModals.AcceptedJobFormCloses | Community-Market/client/src/components/CreateModals.tsx:123-138 | a job form the schema accepts is stored with 201 and the user as employer, and the dialog closes with the success toast |
| CreateModals.AcceptedRequestFormCloses | Community-Market/client/src/components/CreateModals.tsx:207-222 | a request form the schema accepts is stored with 201 and the user as requester, and the dialog closes with the success toast |
| CreateModals.JobFailureShowsHookMessage | Community-Market/client/src/components/CreateModals.tsx:134-136 | the hook always rejects with "Failed to create job", so the dialog's own fallback is never shown |

## Left out

- Postgres, drizzle and Express are not modelled. Storage is maps with serial counters, and the handlers are one pure function.
- Table.Insert: a failed insert does not advance the id counter. Postgres spends a sequence value even on a failed insert; the model keeps only "fresh and above every stored id".
- Server.Seed: `seed()` is called at server start without `await` and without `.catch`. The model runs it as one atomic step on the store. Its interleaving with the first requests is not modelled: for example, "demo" registered during the password hashing makes `createUser` throw. The unhandled rejection of a failed insert is not modelled either; only the writes made before it are.
- The sessions, passport and password hashing in server/auth are not part of this model. The session is a parameter, and the hash of the demo password is an argument of `Seed`. The register, login, logout and current-user handlers live there and are left out.
- The thrown database errors other than not-null and unique violations are not modelled. Connection loss and the like are the `fault` parameter of `Handle`.
- An `id` inside a create body is not modelled. The body is spread into the insert, but the model's inputs carry no id.
- Non-string JSON values in a body are not modelled (a number as the title, say).
- `parseInt` of a non-numeric route id, which yields NaN, is not modelled. Delete ids are integers.
- Schema.PriceIssues: prices are integers in every input. Fractional and NaN prices from the number input are left out. The rule itself is stated over exact reals, so the "between 0 and 1" refusal can still be shown.
- Schema.ValidateUser, Schema.ValidateProduct, Schema.ValidateJob, Schema.ValidateRequest: a `null` field is reported as "Required" like a missing one. Zod words that case as a type error ("Expected string, received null"), so the promise that job salary and whatsapp fail only as "Required" holds for missing fields, not for `null` ones. Zod's issue order is dropped, because issues form a set.
- Table.All: a listing is fixed to ascending id order. The database query has no ORDER BY and promises no order, so the order-preserving promises of `Listings.SearchFilter` and `Home.Mine` are relative to that chosen order.
- Text.Lower: case mapping is ASCII only, and lengths count characters, not UTF-16 units.
- Text.IntToString: JavaScript's exponent notation for numbers at or above 10^21 is not modelled.
- The react-query caching, refetching and invalidation are not modelled. A fetched list is `Option<seq<_>>`, with `None` meaning not yet loaded.
- The product hook (use-products) is not part of this model. So the product dialog's reply is a parameter, while the job and request dialogs are connected to the server through `CreateModals.HookReply`.
- CreateModals.UntouchedProductIssues: an untouched number input reads as NaN, which zod refuses with "Expected number, received nan". Model prices are integers, so the lemma takes the price as a parameter.
- Rendering, dialogs' open state, toasts' display, styling, the Header component and the search box's event plumbing are not modelled.
- The job dashboard subtitle is the stored salary text unchanged, so there is nothing to state about it.

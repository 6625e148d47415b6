# Model of the state-statistics server, its credential store and the signup form

This project models, in Dafny, the three places where the demonstration web
application does real work:

- **The GraphQL resolvers** of `src/server/index.ts`. For a US state, `tradeSummary`
  totals the dollars and tons shipped to other states and lists the destinations
  sorted by each measure. `productionSummary` does the same per commodity group
  (SCTG2) but keeps source order. `employmentSummary` picks, for employee count and
  for average wage separately, the first industry with the largest value.
  `Query.states` returns the list of states, memoised in a process-wide variable
  and optionally filtered by a case-insensitive name prefix.
- **The credential store and authentication** of `src/server/db.ts` and
  `src/server/index.ts`. This covers the `users` table with an auto-increment id
  and no uniqueness on `username`, and `createSchema`. It also covers the passport
  verify callback (first row with equal username and password), user
  serialization, and the `/signup`, `/login` and `/session` handlers.
- **The signup form's validation schema** of `src/pages/Signup.tsx`: required
  fields, the password pattern of lookaheads, the confirmation, and the body that
  is posted.

Modules: `Aggregation` holds the collection operations the resolvers use: `reduce`
as a left fold, `map`, lodash's stable `sortBy` and lodash's `maxBy`. The other
modules are `Resolvers`, `StatesQuery` (with the class `StatesResolver` for the
memo), `UsersDb` (with the class `Database`), `Auth` (with the class `Session`),
`SignupForm` and `Wrappers` (`Option`).

Outbound HTTP calls are replaced by parameters: each resolver takes the records
the statistics API would return. `StatesResolver.Query` takes the list the
search endpoint would return and reports whether it consulted it. Amounts are
`real`, so sums are exact.

Behaviours of the code that the model keeps:

- After a signup, the session holds the **first** row with the submitted username
  and password. That row is the newly inserted one only if no older row had the
  same credentials (`Auth.AuthenticateAfterInsert`, `Auth.DuplicateSignups`).
- Signup stores the principal through `req.logIn` only. It does not set
  `session.userId`; only login does.
- `employmentSummary` on an empty record list still returns both objects, with
  every field undefined, rather than omitting them.
- `/session` returns the whole deserialized row, password column included, or `{}`.
- The `states` memo is written only by a call **without** a name filter. A
  filtered call on an empty memo fetches and filters but leaves the memo empty.
- passport-local refuses an empty username or password with 403 before the
  verify callback runs. `/login` then answers 403 without any query. `/signup`
  has already inserted the row, so it stores the empty credentials and still
  answers 403 (`Auth.Login`, `Auth.Signup`, `Auth.DuplicateSignups`).
- When the `users` table is missing, the insert or query rejects inside an async
  callback that nobody awaits. No 204 or 403 is sent (`Outcome.Failed`).

## Model

| member | source | states |
|---|---|---|
| `Aggregation.SumBy` | src/server/index.ts:149-158 | a reduce total is 0 for no records and a record's own value for one record, and a total of non-negative values is non-negative |
| `Aggregation.Project` | src/server/index.ts:159-176 | the mapped list has the input's length and order, and element i pairs record i's name with its measure |
| `Aggregation.SumByAppend` | src/server/index.ts:149-158 | a reduce total over a concatenation is the sum of the two totals |
| `Aggregation.ProjectSum` | src/server/index.ts:159-176 | the amounts of the mapped `{name, amount}` pairs add up to the total of that measure |
| `Aggregation.SortByAmount` | src/server/index.ts:159-176 | `sortBy(_, 'amount')` returns a list that is sorted by amount, is a permutation of its input, and keeps equal amounts in input order (stable) |
| `Aggregation.StableSortUnique` | src/server/index.ts:159-176 | any two stable sorts of one list are equal, so the contract above determines lodash's result exactly |
| `Aggregation.SortByAmountSum` | src/server/index.ts:159-176 | sorting does not change the total of the amounts |
| `Aggregation.SortByAmountIdempotent` | src/server/index.ts:159-176 | sorting a sorted list changes nothing |
| `Aggregation.FirstMaxIndex` | src/server/index.ts:193-198 | the index is none exactly for an empty list; otherwise it holds the largest key and every earlier element is strictly smaller (first maximum) |
| `Aggregation.MaxBy` | src/server/index.ts:193-198 | `maxBy` is undefined exactly for an empty list, else the element at the first maximum |
| `Aggregation.FirstMaxUnique` | src/server/index.ts:193-198 | the first maximum is unique |
| `Resolvers.TradeSummary` | src/server/index.ts:142-185 | `name` is the parent state's name; `statesByDollars` and `statesByTons` are stable sorts by amount of the per-record destination/measure pairs |
| `Resolvers.TradeTotals` | src/server/index.ts:149-158 | both trade totals are 0 without records, a record's own measure for one record, and additive over a split of the records |
| `Resolvers.TradeTotalsMatchLists` | src/server/index.ts:149-176 | each trade total equals the sum of the amounts in the matching sorted list |
| `Resolvers.EmploymentSummaryOf` | src/server/index.ts:186-210 | with no records every field is undefined; otherwise each top industry is the first record with the maximal employee count or average wage, chosen independently |
| `Resolvers.EmploymentTieExample` | src/server/index.ts:193-208 | of `[A: 5, B: 9, C: 9]` the top industry by employees is `B` |
| `Resolvers.ProductionSummaryOf` | src/server/index.ts:211-247 | `name` is the parent's name; both lists have the input's length and order, and element i pairs record i's SCTG2 code with its measure |
| `Resolvers.ProductionTotals` | src/server/index.ts:218-227 | both production totals are 0 without records, a record's measure for one record, and additive over a split |
| `Resolvers.ProductionTotalsMatchLists` | src/server/index.ts:218-239 | each production total equals the sum of the amounts in the matching list |
| `Resolvers.SortingAsymmetry` | src/server/index.ts:228-239 | for the same shipments the trade list is ascending while the production list keeps source order |
| `StatesQuery.StartsWith` | src/server/index.ts:255 | `startsWith` holds exactly when the prefix is no longer than the string and equals its first characters |
| `StatesQuery.ToLowerIdempotent` | src/server/index.ts:255 | lower-casing twice is lower-casing once |
| `StatesQuery.NameMatches` | src/server/index.ts:255 | a state matches exactly when the lower-cased filter is a prefix of the lower-cased state name |
| `StatesQuery.FilterByName` | src/server/index.ts:253-257 | the filtered list is no longer than the input and holds each matching state as often as the input does, and no other state |
| `StatesQuery.FilterByNameAppend` | src/server/index.ts:254-256 | filtering keeps source order: it distributes over concatenation |
| `StatesQuery.EmptyFilterKeepsAll` | src/server/index.ts:253-258 | the empty filter keeps every state, so the `if (name)` guard changes no result |
| `StatesQuery.FilterIgnoresFilterCase` | src/server/index.ts:255 | the filter's case does not matter |
| `StatesQuery.VirginiaExample` | src/server/index.ts:264-268 | `states(name: "Virg")` keeps Virginia and drops West Virginia and Vermont |
| `StatesQuery.StatesResolver.constructor` | src/server/index.ts:22 | the memo starts empty |
| `StatesQuery.StatesResolver.Query` | src/server/index.ts:250-272 | a cached list is used and never changed; on a miss the fetched list is used; only an unfiltered miss stores it; a truthy name filters, otherwise the whole list is returned |
| `StatesQuery.RepeatedQuery` | src/server/index.ts:252-258 | once cached, two identical queries return the same list and neither calls upstream |
| `UsersDb.IdsUnique` | src/server/db.ts:28 | no two rows of a well-formed table share an id |
| `UsersDb.InsertKeepsWellFormed` | src/server/db.ts:28 | appending a row under the next id keeps ids increasing, and that id was unused |
| `UsersDb.Where` | src/server/index.ts:290-293 | the result holds only rows matching both columns, is empty exactly when no row matches, and starts with the first matching row |
| `UsersDb.FindById` | src/server/index.ts:277 | the result is none exactly when no row has the id, else a row with that id |
| `UsersDb.Database.constructor` | src/server/db.ts:5-11 | a fresh database has no `users` table and no rows |
| `UsersDb.Database.CreateSchema` | src/server/db.ts:22-32 | if the table exists nothing changes (idempotent); otherwise it is created empty with the key counter at its start |
| `UsersDb.Database.Insert` | src/server/index.ts:308 | with the table present a row is always appended, duplicates included, under a fresh id; without it nothing changes and the insert fails |
| `Auth.Authenticate` | src/server/index.ts:289-302 | no user exactly when no row has an equal username and an equal password; otherwise the first such row |
| `Auth.SerializeUser` | src/server/index.ts:281-284 | the session keeps the user's id, and that id finds a row in every table holding the user |
| `Auth.DeserializeUser` | src/server/index.ts:276-279 | the result is none exactly when no row has the id, else a row of the table with that id |
| `Auth.DeserializeSerialize` | src/server/index.ts:276-284 | deserializing a serialized user of a well-formed table gives that user back |
| `Auth.AuthenticateAfterInsert` | src/server/index.ts:306-323 | after the signup insert, authentication always succeeds, and finds the new row exactly when no older row had those credentials |
| `Auth.Session.constructor` | src/server/index.ts:366-375 | a new session holds no principal and no `userId` |
| `Auth.SessionUser` | src/server/index.ts:347-349 | the session answer is a row of the table whose id is the stored principal, or `{}` when nothing is stored or no row has that id |
| `Auth.Login` | src/server/index.ts:325-345 | 403 with the session unchanged for an empty username or password, even without a table; a failed query without the table; 403 with the session unchanged when no row matches; otherwise 204, with both `session.passport.user` and `session.userId` set to the first matching row's id, and `/session` then returns that row |
| `Auth.Signup` | src/server/index.ts:306-323 | the credentials are inserted unconditionally, empty ones included; for an empty username or password the answer is 403 with the session unchanged; otherwise 204, the session holds the first matching row (the new row iff no older row matched), and `session.userId` is untouched |
| `Auth.DuplicateSignups` | src/server/index.ts:306-323 | two signups with one username on a fresh database leave both rows, with distinct ids; each answers 204 and logs in only with non-empty credentials, else 403 and no principal; with equal passwords the second session holds the first row |
| `SignupForm.PatternIsPolicy` | src/pages/Signup.tsx:21 | the lookahead pattern accepts exactly the strings of at least 8 allowed characters with a lower-case letter, an upper-case letter, a digit and a special character |
| `SignupForm.PatternMatches` | src/pages/Signup.tsx:21 | a string the pattern accepts has at least 8 characters, all from the allowed set |
| `SignupForm.PasswordValid` | src/pages/Signup.tsx:17-23 | the password field accepts exactly the passwords meeting that policy; `required()` and `min(8)` add nothing to the pattern |
| `SignupForm.FormValid` | src/pages/Signup.tsx:15-27 | the form is valid exactly when the username is non-empty, the password meets the policy and the confirmation equals the password |
| `SignupForm.Submit` | src/pages/Signup.tsx:15-38 | a body is posted exactly when all three fields are valid; it carries exactly the submitted username and password, the password equals the confirmation, and the confirmation itself is dropped |
| `SignupForm.AcceptedExample` | src/pages/Signup.tsx:21 | `Passw0rd!` is accepted |
| `SignupForm.NoUpperExample` | src/pages/Signup.tsx:21 | a password without an upper-case letter is rejected |
| `SignupForm.SpaceExample` | src/pages/Signup.tsx:21 | a space is outside the allowed characters |
| `SignupForm.ShortExample` | src/pages/Signup.tsx:19 | seven characters are too few |

## Left out

- Outbound `fetch` calls and `response.json()`: their results are parameters. Network errors, non-200 answers and a missing `data` or `results` array are not modelled.
- JavaScript `number` arithmetic: amounts are exact `real`s, so rounding, `NaN` and non-numeric measures are not modelled. lodash's skipping of `undefined` keys in `maxBy` and its handling of them in `sortBy` are left out too.
- `toLowerCase` beyond ASCII: only `A`–`Z` are folded.
- Auth.Signup, Auth.Login: `req.logIn` is taken to write only `session.passport.user` and keep the rest of the session, as passport did before version 0.6; from 0.6 on it regenerates the session, which would drop a `session.userId` set earlier. The source does not pin the passport version.
- passport-local's lookup of the fields in the query string when the body lacks them, and non-string field values: the handlers receive the two strings directly.
- Express, body-parser, CORS, express-session, passport middleware wiring and Apollo server start-up: library plumbing. Durability of `req.session.save` is reduced to setting the session fields.
- The GraphQL schema text, GraphQL scalar coercion (the schema declares `employedCount` and `averageSalary` as `String`), and the cache-control and response-cache plugins: declarative configuration.
- Knex, Objection and SQLite internals: the table is a sequence of rows with a next-id counter. Rows are read in insertion order, which SQLite gives for this query without promising it.
- The check-then-set race on the `states` memo and concurrent requests in general: each call is one atomic step.
- The Apollo context's `getUser` and `logout`: no resolver reads them.
- Yup's length counts UTF-16 code units, not characters. This changes no verdict, because the pattern admits only ASCII.
- The React components, routing guards and HTTP client of the front end.

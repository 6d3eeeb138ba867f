# Bibliotech storefront core, modelled in Dafny

Bibliotech is a small online shop for e-books. It is a Flask application whose
logic lives in one file, `main.py`. This project models the parts of that file
that decide something:

- the **session cart** (`session["carrinho"]`), an ordered list of book ids.
  `adicionar_carrinho` appends an id that is not yet listed. `remover_carrinho`
  removes a listed id;
- the **cart total** shown by `carrinho` and `checkout` and computed again by
  `finalizar_compra`. It is the sum of the prices of the catalog books that the
  query `Livro.id IN cart` matches;
- **`finalizar_compra`**, which prices the cart, empties it and redirects to the
  receipt carrying the old ids and the total;
- the **catalog seeding guard** `inserir_livros_iniciais`. The process-wide flag
  `livros_inseridos` and the `Livro` table form a two-state machine. The three
  sample books go in only when the flag is unset and the table is empty;
- **registration, login and logout** over the `Usuario` table.

Layout, one module per component:

| file | module | contents |
|---|---|---|
| `wrappers.dfy` | `Wrappers` | `Option` |
| `books.dfy` | `Books` | `Book`, `Catalog`, the sample books, the seeding step as a pure function |
| `cart.dfy` | `Cart` | add and remove on the cart list, the no-duplicates invariant |
| `totals.dfy` | `Totals` | the query's rows, their price sum, the cart total and its properties |
| `accounts.dfy` | `Accounts` | `User`, e-mail lookup, the `register` and `login` decisions |
| `app.dfy` | `Bibliotech` | class `Session` (cart and login keys), class `Store` (flag, catalog, users), the handlers as methods |

The handlers that change state are methods of two classes. `Session` holds the
visitor's session. `Store` holds the process-wide flag and the database tables.
Each method's `ensures` gives the new state as a function of the old state. The
properties are proved as lemmas about those functions.

Modelling choices:

- Prices are integer cents, not the `Float` column. For example, 29.90 is 2990.
- The seeding step inserts the sample books into an empty table. SQLite gives
  them the keys 1, 2 and 3, and the model uses those keys.
- Users are never deleted. So the user at position `i` of the table has the key
  `i + 1`. A `Store` can only be built on a table whose e-mails are unique,
  as the `unique=True` column (main.py:24) guarantees. So `.first()`
  without an ORDER BY (main.py:122) has at most one row to choose from.
- `generate_password_hash` is outside the model. `register` receives the hash
  value as a parameter. `check_password_hash` is a function parameter
  `checkHash(hash, password)` with no assumed properties.
- Cart ids come from the `<int:...>` route converter, which passes on any
  digit string it can turn into an int, so the handlers take a `nat`. The sqlite3 driver cannot
  bind an integer outside SQLite's 64-bit range and raises `OverflowError`.
  So `carrinho`, `checkout` and `finalizar_compra` fail on a cart holding
  such an id. `PriceCart` returns `None` in that case. `FinalizePurchase`
  then issues no receipt and leaves the cart as it was.
- The database may return the matching rows in any order. `QueryRows` returns
  one admissible answer. `TotalIsSumOfMatchedBooks` proves that every
  duplicate-free listing of the matched books gives the same total.
- `remover_carrinho` calls Python's `list.remove`, which deletes the first
  occurrence. `RemoveFirst` models exactly that. On a duplicate-free cart,
  `RemoveFirstIsWithout` shows it equals filtering the id out.

Three behaviours of the code that the model keeps as written:

- `finalizar_compra` (main.py:184-204) creates no `Compra` and no `Historico`
  rows. It computes the total, sets the cart to `[]` and redirects.
  `FinalizePurchase` therefore leaves the store untouched.
- `finalizar_compra` does not check that the visitor is logged in. Only
  `checkout` (main.py:174-175) does. `FinalizePurchase` has no login
  precondition.
- `adicionar_carrinho` (main.py:144-150) does not check that the id exists in
  the catalog. A cart may list unknown ids, and the total skips them.

## Model

| member | source | states |
|---|---|---|
| `Books.InitialCatalog` | main.py:258-285 | the sample catalog holds exactly the keys 1, 2, 3, priced 2990, 3490 and 2490 cents |
| `Books.Seed` | main.py:256-289 | afterwards the flag is always set; the catalog changes only when the flag was unset and the catalog empty, and then it becomes the sample catalog; with the flag already set nothing changes |
| `Books.SeedIdempotent` | main.py:256-289 | a second run of the guard changes nothing |
| `Books.SeedStepsAsFirst` | main.py:250-289 | however many requests run the guard, the state equals the state after the first run: the sample books are inserted at most once per process |
| `Books.SeedFromEmptyProcess` | main.py:250-289 | a fresh process on an empty database has exactly the three sample books after any number of requests |
| `Books.SeedTwiceFromEmpty` | main.py:256-289 | two runs in a row from an empty catalog leave three books, not six |
| `Cart.Add` | main.py:149-150 | the id is listed afterwards; the members are the old ones plus the id; the length grows by one exactly when the id was new; the old list is a prefix, so a new id goes at the end; no duplicates are introduced |
| `Cart.AddIdempotent` | main.py:149-150 | adding the same id twice equals adding it once |
| `Cart.AddExamples` | main.py:149-150 | adding 1, 2 and then 1 again to an empty cart lists 1 and 2 once each, in that order |
| `Cart.RemoveFirst` | main.py:159-160 | an absent id leaves the list unchanged; a listed id shortens it by one; no other id is lost or gained; on a duplicate-free list the result is duplicate-free and no longer lists the id |
| `Cart.RemoveFirstMultiset` | main.py:160 | exactly one copy of the id is removed and every other element is kept |
| `Cart.RemoveFirstIsWithout` | main.py:159-160 | on a duplicate-free cart, removal equals filtering out the id, so the other ids keep their relative order |
| `Totals.QueryRows` | main.py:168 | the query result lists each catalog book whose id is in the cart exactly once, and nothing else |
| `Totals.RowSum` | main.py:169 | `sum(l.preco for l in livros)` in cents over matched book ids; with non-negative prices the sum is non-negative |
| `Totals.CartTotal` | main.py:167-169 | the total all three handlers compute (main.py:168-169, 178-179, 192-193): the price sum of the query rows for the cart's ids; with non-negative catalog prices it is non-negative |
| `Totals.UnknownIdsCostNothing` | main.py:168-169 | a cart listing no catalog id matches no rows and totals 0 |
| `Totals.Bindable` | main.py:168 | an id the sqlite3 driver can bind as a query parameter: one within SQLite's signed 64-bit INTEGER range |
| `Totals.CartBindable` | main.py:168 | every id of the cart is bindable, so the `IN` query does not raise `OverflowError` |
| `Totals.RowSumPermutation` | main.py:169 | the price sum of the rows does not depend on their order |
| `Totals.PriceCart` | main.py:168-169 | the query fails exactly when some cart id is outside SQLite's 64-bit range; otherwise it returns each catalog book of the cart once, and the total is their price sum and the cart total |
| `Totals.PriceCartExamples` | main.py:168-169 | ids [1, 2] over the sample books are priced at 6480 cents; a cart holding one id past the 64-bit range makes the query fail |
| `Totals.TotalIsSumOfMatchedBooks` | main.py:167-169 | for every order the database may return the matched books in, the cart total is the sum of their prices |
| `Totals.SameIdsSameTotal` | main.py:168-169 | carts with the same ids have the same total, whatever their order or repetitions: each book is counted once |
| `Totals.TotalAppend` | main.py:168-169 | appending an id adds that book's price if it is in the catalog and not yet listed; otherwise an unknown or repeated id adds 0 |
| `Totals.TotalAfterAdd` | main.py:149-150 | adding to the cart raises the total by the book's price exactly when the id is new and in the catalog |
| `Totals.TotalAfterRemove` | main.py:159-160 | removing a listed, known id from a duplicate-free cart lowers the total by that book's price; otherwise the total is unchanged |
| `Totals.TotalExamples` | main.py:262-271 | the empty cart totals 0; ids [1, 2] over the sample books total 6480 cents, as does [2, 7, 1] with the unknown id 7 |
| `Accounts.FindByEmail` | main.py:122 | the result is a user with that e-mail (the first in table order), or none when no user has it |
| `Accounts.FindUnique` | main.py:24 | under the unique-e-mail constraint the lookup finds exactly the user with that e-mail |
| `Accounts.Register` | main.py:98-108 | a known e-mail is rejected and the table stays as it was; otherwise exactly one user with the default role and status is appended, lookup finds it, and e-mail uniqueness is preserved |
| `Accounts.Authenticate` | main.py:122-124 | success only for an existing user whose hash check passes, with that user's key, name and e-mail; a missing user gives the same `InvalidCredentials` as a wrong password; with unique e-mails, success holds exactly when the check passes |
| `Accounts.RegisterThenLogin` | main.py:102-131 | after registering, logging in with a password the stored hash accepts yields the new user's identity |
| `Accounts.DuplicateRejected` | main.py:98-100 | registering an e-mail already in the table is rejected |
| `Bibliotech.Session.CartIds` | main.py:167 | `session.get("carrinho", [])` (also main.py:177, 190): the session's cart, or the empty list before one is created |
| `Bibliotech.Session.constructor` | main.py:146 | a new session has no cart and no login keys, and satisfies the no-duplicates invariant |
| `Bibliotech.Session.AddToCart` | main.py:144-152 | a missing cart is created empty, then the cart becomes `Cart.Add` of the old one; the login keys are untouched; no duplicates are introduced |
| `Bibliotech.Session.RemoveFromCart` | main.py:157-162 | with no cart, or an id not listed, nothing changes; otherwise the first occurrence is removed; on a duplicate-free cart the result is the old cart with the id filtered out |
| `Bibliotech.Session.ViewCart` | main.py:165-170 | the request fails exactly when a cart id is outside SQLite's range; otherwise the books shown are exactly the cart's catalog books, each once, and the total is the sum of their prices |
| `Bibliotech.Session.ReviewCheckout` | main.py:172-181 | an anonymous visitor gets the login redirect; for a logged-in one the request fails on an out-of-range cart id, and otherwise shows the review page with the cart's books and total |
| `Bibliotech.Session.FinalizePurchase` | main.py:184-204 | on an out-of-range cart id the request fails with no receipt and the cart unchanged; otherwise the receipt carries the form fields, the ids and the total of the cart before clearing, and afterwards the cart is empty; the login keys are untouched |
| `Bibliotech.Session.Login` | main.py:116-133 | on valid credentials the session holds the authenticated identity; on invalid ones it keeps its old login keys; the cart is untouched; on a table with unique e-mails, as a valid `Store` holds, logging in as a listed user succeeds exactly when that user's hash check passes, and the session then holds that user's key, name and e-mail |
| `Bibliotech.Session.Logout` | main.py:138-142 | the session holds neither cart nor login keys |
| `Bibliotech.Store.constructor` | main.py:250 | at process start the flag is unset, and the tables hold what the database held, with unique e-mails |
| `Bibliotech.Store.SeedCatalog` | main.py:252-289 | the flag and the catalog take the values of `Books.Seed`; the users are untouched |
| `Bibliotech.Store.RegisterUser` | main.py:91-113 | the user table becomes the result of `Accounts.Register`, and is unchanged on rejection; e-mail uniqueness is preserved |
| `Bibliotech.SeededStore` | main.py:250-289 | a fresh process on an empty database that runs the seeding guard twice holds exactly the sample catalog |
| `Bibliotech.FirstPurchase` | main.py:184-204 | on the seeded catalog, adding books 1, 2 and 1 and then finalizing yields a receipt listing [1, 2] with a total of 6480 cents |

## Left out

- `enviar_email_com_ebooks` (main.py:56-84): SMTP network I/O, file reads and MIME construction through foreign libraries. Nothing in the file calls it.
- Routing, `render_template`, `flash`, `redirect`, `url_for`, `session.modified` and `request.referrer` are presentation and request plumbing. So is the receipt echo in `comprovante` (main.py:290-307). A handler's redirect is modelled only as its returned value.
- Reading form fields (`request.form[...]`) is request plumbing. A missing field raises an error before any of the modelled logic runs.
- SQL is not executed. The `Livro` and `Usuario` tables are a Dafny map and a sequence. `get_or_404` in `previa`/`ler` and the `ilike` search in `pesquisar` (main.py:223-249) are foreign database semantics.
- `generate_password_hash` and `check_password_hash` are outside the model. The first is salted and random, so the hash arrives as a parameter. The second is an arbitrary function parameter.
- Float prices are not modelled. `Book.price` is integer cents, so the model does no floating-point summation or rounding.
- Concurrency is not modelled. Two requests can race on the global flag or on one session's cart. The server provides the concurrency, so the model is sequential.
- The read-only listings are not modelled (main.py:86-89, 205-221). `index` lists every book. `historico` and `minha_biblioteca` read the `Historico` and `Compra` rows of the logged-in user. No code path creates those rows, so those tables are not modelled.
- Bibliotech.Session.AddToCart: accepts every `nat`. The `<int:>` converter's `int()` raises `ValueError` on a digit string longer than Python's integer-string limit (4300 digits by default). Such a request fails before `adicionar_carrinho` runs and leaves the cart unchanged. This routing limit is not modelled.
- Bibliotech.Session.RemoveFromCart: accepts every `nat`, for the same reason. Its route uses the same converter.
- The `print` after a successful seeding (main.py:287) is console output.
- Books.Seed: assumes the count query and the commit succeed. If `Livro.query.count()` or `db.session.commit()` raises (main.py:257, 286), line 289 is not reached. The flag then stays unset and the next request tries again. The "flag always set" clause holds only for a run the database does not fail.
- Bibliotech.Store.SeedCatalog: the same assumption as `Books.Seed`. Database failure during seeding is not modelled.
- The `tipo` and `status` columns exist only as the defaults a new user receives. No code in the file reads or changes them.

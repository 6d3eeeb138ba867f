/**
 The request handlers of the shop over two pieces of state: a visitor's
 session (`Session`) and the process with its database (`Store`).
 */
module Bibliotech {
  import opened Wrappers
  import opened Books
  import opened Cart
  import opened Totals
  import opened Accounts

  /** The redirect to `comprovante` issued by `finalizar_compra`: form fields, total and the cart's ids. */
  datatype Receipt = Receipt(cpf: Option<string>, phone: Option<string>, payment: Option<string>,
                             total: int, books: seq<int>)

  /**
   What `checkout` answers: a redirect to the login page, a failed request
   when the cart query raises, or the review page.
   */
  datatype CheckoutPage = LoginRequired | QueryFailed | Review(books: seq<int>, total: int)

  /** One visitor's server-side session. */
  class Session {
    /** `session["carrinho"]`, absent until the first add or finalized purchase. */
    var cart: Option<seq<int>>
    /** `logged_in` with `user_id`, `user_name` and `user_email`, all set together on login. */
    var user: Option<Identity>

    constructor ()
      ensures cart == None && user == None && Valid()
    {
      cart, user := None, None;
    }

    /** `session.get("carrinho", [])`. */
    function CartIds(): seq<int>
      reads this
    {
      match cart
      case None => []
      case Some(ids) => ids
    }

    /** The cart never lists a book twice. */
    predicate Valid()
      reads this
    {
      NoDuplicates(CartIds())
    }

    /** `adicionar_carrinho`: create the cart if needed, then append the id unless it is listed. */
    method AddToCart(id: nat)
      modifies this
      ensures cart == Some(Add(old(CartIds()), id))
      ensures user == old(user)
      ensures old(Valid()) ==> Valid()
    {
      if cart.None? {
        cart := Some([]);
      }
      if id !in cart.value {
        cart := Some(cart.value + [id]);
      }
    }

    /** `remover_carrinho`: remove the id if there is a cart listing it; otherwise change nothing. */
    method RemoveFromCart(id: nat)
      modifies this
      ensures old(cart).Some? && id in old(CartIds()) ==> cart == Some(RemoveFirst(old(CartIds()), id))
      ensures !(old(cart).Some? && id in old(CartIds())) ==> cart == old(cart)
      ensures user == old(user)
      ensures old(Valid()) ==> Valid() && CartIds() == Without(old(CartIds()), id)
    {
      if cart.Some? && id in cart.value {
        cart := Some(RemoveFirst(cart.value, id));
      }
      if old(Valid()) {
        RemoveFirstIsWithout(old(CartIds()), id);
        if id !in old(CartIds()) {
          WithoutAbsent(old(CartIds()), id);
        }
      }
    }

    /**
     `carrinho`: the books the cart's ids resolve to, and their total; `None`
     when the query raises on an id out of SQLite's range.
     */
    method ViewCart(catalog: Catalog) returns (view: Option<Priced>)
      ensures view.None? <==> exists i :: 0 <= i < |CartIds()| && !Bindable(CartIds()[i])
      ensures view.Some? ==>
                IsQueryResult(catalog, CartIds(), view.value.books) && AllKnown(catalog, view.value.books) &&
                view.value.total == RowSum(catalog, view.value.books) &&
                view.value.total == CartTotal(catalog, CartIds())
    {
      view := PriceCart(catalog, CartIds());
    }

    /**
     `checkout`: anonymous visitors are sent to log in; for others the cart is
     priced, which fails on an id out of SQLite's range.
     */
    method ReviewCheckout(catalog: Catalog) returns (page: CheckoutPage)
      ensures page.LoginRequired? <==> user.None?
      ensures page.QueryFailed? <==> user.Some? && !CartBindable(CartIds())
      ensures page.Review? ==>
                IsQueryResult(catalog, CartIds(), page.books) && AllKnown(catalog, page.books) &&
                page.total == RowSum(catalog, page.books)
    {
      if user.None? {
        page := LoginRequired;
      } else {
        var view := ViewCart(catalog);
        if view.None? {
          page := QueryFailed;
        } else {
          page := Review(view.value.books, view.value.total);
        }
      }
    }

    /**
     `finalizar_compra`: price the cart, empty it and hand the ids and total to
     the receipt. It does not check the login and records no purchase. When
     the query raises, the request fails before the cart is emptied.
     */
    method FinalizePurchase(catalog: Catalog, cpf: Option<string>, phone: Option<string>,
                            payment: Option<string>) returns (receipt: Option<Receipt>)
      modifies this
      ensures receipt.None? <==> !CartBindable(old(CartIds()))
      ensures receipt.None? ==> cart == old(cart)
      ensures receipt.Some? ==>
                receipt.value == Receipt(cpf, phone, payment, CartTotal(catalog, old(CartIds())), old(CartIds())) &&
                cart == Some([]) && CartIds() == [] && Valid()
      ensures user == old(user)
    {
      var ids := CartIds();
      var priced := PriceCart(catalog, ids);
      if priced.None? {
        receipt := None;
      } else {
        cart := Some([]);
        receipt := Some(Receipt(cpf, phone, payment, priced.value.total, ids));
      }
    }

    /** `login`: on valid credentials store the user's identity; otherwise leave the session alone. */
    method Login(users: UserTable, email: string, password: string, checkHash: (string, string) -> bool)
      returns (ok: bool)
      modifies this
      ensures ok <==> Authenticate(users, email, password, checkHash).Authenticated?
      ensures ok ==> user == Some(Authenticate(users, email, password, checkHash).who)
      ensures !ok ==> user == old(user)
      ensures UniqueEmails(users) ==>
                forall i :: 0 <= i < |users| && users[i].email == email ==>
                  (ok <==> checkHash(users[i].passwordHash, password)) &&
                  (ok ==> user == Some(Identity(i + 1, users[i].name, email)))
      ensures cart == old(cart)
    {
      var outcome := Authenticate(users, email, password, checkHash);
      ok := outcome.Authenticated?;
      if ok {
        user := Some(outcome.who);
      }
    }

    /** `logout`: `session.clear()`. */
    method Logout()
      modifies this
      ensures cart == None && user == None && CartIds() == []
    {
      cart, user := None, None;
    }
  }

  /** The process: the `livros_inseridos` flag and the database tables the core writes. */
  class Store {
    var booksInserted: bool
    var catalog: Catalog
    var users: UserTable

    /** E-mail addresses are unique among users. */
    predicate Valid()
      reads this
    {
      UniqueEmails(users)
    }

    /** Process start: the flag is unset, the database holds whatever it held before. */
    constructor (catalog: Catalog, users: UserTable)
      requires UniqueEmails(users)
      ensures !booksInserted && this.catalog == catalog && this.users == users && Valid()
    {
      booksInserted, this.catalog, this.users := false, catalog, users;
    }

    /** `inserir_livros_iniciais`, run before every request. */
    method SeedCatalog()
      modifies this
      ensures SeedState(booksInserted, catalog) == Seed(SeedState(old(booksInserted), old(catalog)))
      ensures users == old(users)
    {
      if !booksInserted {
        if |catalog| == 0 {
          catalog := InitialCatalog();
        }
        booksInserted := true;
      }
    }

    /** `register`: reject a known e-mail, otherwise add one user with the given password hash. */
    method RegisterUser(name: string, email: string, passwordHash: string) returns (ok: bool)
      modifies this
      ensures ok <==> Register(old(users), name, email, passwordHash).Some?
      ensures ok ==> users == Register(old(users), name, email, passwordHash).value
      ensures !ok ==> users == old(users)
      ensures catalog == old(catalog) && booksInserted == old(booksInserted)
      ensures old(Valid()) ==> Valid()
    {
      if FindByEmail(users, email).Some? {
        ok := false;
      } else {
        users := users + [User(name, email, passwordHash, DefaultRole, DefaultStatus)];
        ok := true;
      }
    }
  }

  /** A fresh process on an empty database, after two requests have run the seeding guard. */
  method SeededStore() returns (store: Store)
    ensures fresh(store) && store.booksInserted && store.catalog == InitialCatalog() && store.users == []
  {
    store := new Store(map[], []);
    store.SeedCatalog();
    store.SeedCatalog();
  }

  /**
   A first visit to a seeded process: books 1, 2 and 1 again go into the
   cart, and the purchase is finalized.
   */
  method FirstPurchase() returns (receipt: Option<Receipt>)
    ensures receipt.Some? && receipt.value.books == [1, 2] && receipt.value.total == 6480
  {
    var store := SeededStore();
    var session := new Session();
    AddExamples();
    session.AddToCart(1);
    session.AddToCart(2);
    session.AddToCart(1);
    PriceCartExamples(store.catalog);
    receipt := session.FinalizePurchase(store.catalog, None, None, None);
  }
}

/**
 The cart total shown by `carrinho` and `checkout` and computed again by
 `finalizar_compra`: the query `Livro.id IN cart` yields each matching book
 once, and their prices are summed. Ids the catalog does not hold are
 skipped, and a book listed twice is counted once.
 */
module Totals {
  import opened Wrappers
  import opened Books
  import opened Cart

  /** Every listed id has a row in the catalog. */
  predicate AllKnown(catalog: Catalog, ids: seq<int>) {
    forall i :: 0 <= i < |ids| ==> ids[i] in catalog
  }

  /** The rows of a query whose result lists exactly the cart's catalog ids, each once. */
  ghost predicate IsQueryResult(catalog: Catalog, cart: seq<int>, rows: seq<int>) {
    NoDuplicates(rows) && forall x :: x in rows <==> x in cart && x in catalog
  }

  /**
   One admissible answer of `Livro.query.filter(Livro.id.in_(cart)).all()`;
   the database leaves the row order open, and the lemmas below show the
   total does not depend on it.
   */
  function QueryRows(catalog: Catalog, cart: seq<int>): (rows: seq<int>)
    ensures IsQueryResult(catalog, cart, rows)
    ensures |rows| <= |cart|
  {
    if cart == [] then []
    else
      var rest := QueryRows(catalog, cart[1..]);
      assert forall x :: x in cart <==> x == cart[0] || x in cart[1..] by {
        assert cart == [cart[0]] + cart[1..];
      }
      if cart[0] in catalog && cart[0] !in rest then
        NoDuplicatesCons(cart[0], rest);
        [cart[0]] + rest
      else rest
  }

  /** `sum(l.preco for l in livros)`, in cents. */
  function RowSum(catalog: Catalog, rows: seq<int>): (r: int)
    requires AllKnown(catalog, rows)
    ensures (forall i :: 0 <= i < |rows| ==> catalog[rows[i]].price >= 0) ==> r >= 0
  {
    if rows == [] then 0
    else
      catalog[rows[0]].price + RowSum(catalog, rows[1..])
  }

  /** The total of the cart as the three handlers compute it. */
  function CartTotal(catalog: Catalog, cart: seq<int>): (r: int)
    ensures (forall id :: id in catalog ==> catalog[id].price >= 0) ==> r >= 0
  {
    var rows := QueryRows(catalog, cart);
    assert forall x :: x in rows ==> x in catalog;
    RowSum(catalog, rows)
  }

  /** SQLite's INTEGER range: the sqlite3 driver raises OverflowError on binding a value outside it. */
  const MinInteger: int := -0x8000_0000_0000_0000
  const MaxInteger: int := 0x7FFF_FFFF_FFFF_FFFF

  predicate Bindable(id: int) {
    MinInteger <= id <= MaxInteger
  }

  /** Every id of the cart can be bound as a parameter of the `IN` query. */
  predicate CartBindable(cart: seq<int>) {
    forall i :: 0 <= i < |cart| ==> Bindable(cart[i])
  }

  /** The rows a query returned and the sum of their prices. */
  datatype Priced = Priced(books: seq<int>, total: int)

  /**
   The query followed by `sum(l.preco for l in livros)`: `None` when the query
   raises because some cart id is out of SQLite's range, otherwise the
   matched books and the cart total.
   */
  function PriceCart(catalog: Catalog, cart: seq<int>): (r: Option<Priced>)
    ensures r.None? <==> exists i :: 0 <= i < |cart| && !Bindable(cart[i])
    ensures r.Some? ==>
              IsQueryResult(catalog, cart, r.value.books) && AllKnown(catalog, r.value.books) &&
              r.value.total == RowSum(catalog, r.value.books) && r.value.total == CartTotal(catalog, cart)
  {
    if CartBindable(cart) then
      var rows := QueryRows(catalog, cart);
      TotalIsSumOfMatchedBooks(catalog, cart, rows);
      Some(Priced(rows, RowSum(catalog, rows)))
    else None
  }

  /** Taking one book out of the rows takes its price out of the sum. */
  lemma {:induction false} RowSumRemove(catalog: Catalog, rows: seq<int>, id: int)
    requires AllKnown(catalog, rows) && id in rows
    ensures AllKnown(catalog, RemoveFirst(rows, id))
    ensures RowSum(catalog, rows) == catalog[id].price + RowSum(catalog, RemoveFirst(rows, id))
  {
    var shrunk := RemoveFirst(rows, id);
    if rows[0] != id {
      assert rows == [rows[0]] + rows[1..];
      RowSumRemove(catalog, rows[1..], id);
      assert shrunk == [rows[0]] + RemoveFirst(rows[1..], id);
      assert shrunk[1..] == RemoveFirst(rows[1..], id);
    }
  }

  /** A permutation of known rows holds only known rows. */
  lemma AllKnownPermutation(catalog: Catalog, a: seq<int>, b: seq<int>)
    requires AllKnown(catalog, a) && multiset(a) == multiset(b)
    ensures AllKnown(catalog, b)
  {
    forall i | 0 <= i < |b| ensures b[i] in catalog {
      assert b[i] in multiset(b);
      assert b[i] in a;
      var j :| 0 <= j < |a| && a[j] == b[i];
    }
  }

  /** Rows listing the same books in another order have the same sum. */
  lemma {:induction false} RowSumPermutation(catalog: Catalog, a: seq<int>, b: seq<int>)
    requires AllKnown(catalog, a) && multiset(a) == multiset(b)
    ensures AllKnown(catalog, b)
    ensures RowSum(catalog, a) == RowSum(catalog, b)
    decreases |a|
  {
    AllKnownPermutation(catalog, a, b);
    if a == [] {
      assert |b| == |multiset(b)|;
    } else {
      var h := a[0];
      assert a == [h] + a[1..];
      assert h in multiset(b);
      var b' := RemoveFirst(b, h);
      RemoveFirstMultiset(b, h);
      RowSumPermutation(catalog, a[1..], b');
      RowSumRemove(catalog, b, h);
    }
  }

  /**
   Whatever order the query returns the matching books in, the total is the
   sum of their prices.
   */
  lemma TotalIsSumOfMatchedBooks(catalog: Catalog, cart: seq<int>, rows: seq<int>)
    requires IsQueryResult(catalog, cart, rows)
    ensures AllKnown(catalog, rows)
    ensures CartTotal(catalog, cart) == RowSum(catalog, rows)
  {
    SameMembersPermutation(QueryRows(catalog, cart), rows);
    RowSumPermutation(catalog, QueryRows(catalog, cart), rows);
  }

  /** Carts listing the same ids, in any order and with any repetition, have the same total. */
  lemma SameIdsSameTotal(catalog: Catalog, a: seq<int>, b: seq<int>)
    requires forall x :: x in a <==> x in b
    ensures CartTotal(catalog, a) == CartTotal(catalog, b)
  {
    TotalIsSumOfMatchedBooks(catalog, b, QueryRows(catalog, a));
  }

  /** Appending an id raises the total by that book's price if it is new and known, else not at all. */
  lemma TotalAppend(catalog: Catalog, cart: seq<int>, id: int)
    ensures CartTotal(catalog, cart + [id])
         == CartTotal(catalog, cart) + if id in catalog && id !in cart then catalog[id].price else 0
  {
    var grown := cart + [id];
    var rows := QueryRows(catalog, cart);
    assert forall x :: x in grown <==> x in cart || x == id;
    if id in catalog && id !in cart {
      NoDuplicatesCons(id, rows);
      assert ([id] + rows)[1..] == rows;
      TotalIsSumOfMatchedBooks(catalog, grown, [id] + rows);
    } else {
      TotalIsSumOfMatchedBooks(catalog, grown, rows);
    }
  }

  /** Adding a book to the cart raises the total by its price exactly when it is new and known. */
  lemma TotalAfterAdd(catalog: Catalog, cart: seq<int>, id: int)
    ensures CartTotal(catalog, Add(cart, id))
         == CartTotal(catalog, cart) + if id in catalog && id !in cart then catalog[id].price else 0
  {
    if id !in cart {
      TotalAppend(catalog, cart, id);
    }
  }

  /** Removing a listed, known book from a duplicate-free cart lowers the total by its price. */
  lemma TotalAfterRemove(catalog: Catalog, cart: seq<int>, id: int)
    requires NoDuplicates(cart)
    ensures CartTotal(catalog, RemoveFirst(cart, id))
         == CartTotal(catalog, cart) - if id in catalog && id in cart then catalog[id].price else 0
  {
    var shrunk := RemoveFirst(cart, id);
    var rows := QueryRows(catalog, cart);
    if id in catalog && id in cart {
      var rows' := RemoveFirst(rows, id);
      RowSumRemove(catalog, rows, id);
      TotalIsSumOfMatchedBooks(catalog, shrunk, rows');
    } else {
      TotalIsSumOfMatchedBooks(catalog, shrunk, rows);
    }
  }

  /** A cart listing no catalog id matches no rows and totals 0: unknown ids are skipped. */
  lemma {:induction false} UnknownIdsCostNothing(catalog: Catalog, cart: seq<int>)
    requires forall i :: 0 <= i < |cart| ==> cart[i] !in catalog
    ensures QueryRows(catalog, cart) == [] && CartTotal(catalog, cart) == 0
  {
    if cart != [] {
      assert forall i :: 0 <= i < |cart[1..]| ==> cart[1..][i] == cart[i + 1];
      UnknownIdsCostNothing(catalog, cart[1..]);
    }
  }

  /** The empty cart costs nothing; the first two sample books cost 29.90 + 34.90 = 64.80. */
  lemma TotalExamples()
    ensures CartTotal(InitialCatalog(), []) == 0
    ensures CartTotal(InitialCatalog(), [1, 2]) == 6480
    ensures CartTotal(InitialCatalog(), [2, 7, 1]) == 6480
  {
    var books := InitialCatalog();
    assert QueryRows(books, [2]) == [2];
    assert QueryRows(books, [1, 2]) == [1, 2];
    assert QueryRows(books, [1]) == [1];
    assert QueryRows(books, [7, 1]) == [1];
    assert QueryRows(books, [2, 7, 1]) == [2, 1];
  }

  /** Ids within SQLite's range are priced; one id past it makes the whole query fail. */
  lemma PriceCartExamples(catalog: Catalog)
    ensures PriceCart(InitialCatalog(), [1, 2]) == Some(Priced(QueryRows(InitialCatalog(), [1, 2]), 6480))
    ensures PriceCart(catalog, [1, MaxInteger + 1]) == None
  {
    TotalExamples();
    assert CartBindable([1, 2]);
    assert !Bindable([1, MaxInteger + 1][1]);
  }
}

/**
 The book catalog (the `Livro` table) and the one-time seeding step that runs
 before the first request (`inserir_livros_iniciais`).
 */
module Books {

  /** A `Livro` row. Prices are integer cents instead of the table's float column. */
  datatype Book = Book(
    title: string,
    author: string,
    genre: string,
    price: int,
    cover: string,
    preview: string)

  /** The `Livro` table, keyed by its integer primary key. */
  type Catalog = map<int, Book>

  /** The three sample books, with the ids an empty SQLite table gives them (1, 2, 3). */
  function InitialCatalog(): (c: Catalog)
    ensures |c| == 3 && c.Keys == {1, 2, 3}
    ensures c[1].price == 2990 && c[2].price == 3490 && c[3].price == 2490
  {
    var c := map[
      1 := Book("O Essencial de Python", "João da Silva", "Tecnologia", 2990,
                "essencial_python.jpg",
                "Um guia essencial para aprender Python de forma prática e objetiva."),
      2 := Book("O Guia Definitivo de UX", "Maria Souza", "Design", 3490,
                "guia_ux.jpg",
                "Domine conceitos fundamentais de UX e construa interfaces incríveis."),
      3 := Book("Lógica de Programação Moderna", "Carlos Andrade", "Tecnologia", 2490,
                "logica_programacao.jpg",
                "Aprenda lógica de programação de forma clara e acessível.")];
    assert c.Keys == {1, 2, 3};
    c
  }

  /** The process-wide flag `livros_inseridos` together with the catalog it guards. */
  datatype SeedState = SeedState(inserted: bool, catalog: Catalog)

  /**
   One run of the seeding guard: only an unset flag and an empty catalog lead
   to inserting the sample books; the flag is set in every case.
   */
  function Seed(s: SeedState): (r: SeedState)
    ensures r.inserted
    ensures r.catalog == s.catalog || (s.catalog == map[] && r.catalog == InitialCatalog())
    ensures r.catalog != s.catalog <==> !s.inserted && s.catalog == map[]
    ensures s.inserted ==> r == s
  {
    if s.inserted then s
    else SeedState(true, if |s.catalog| == 0 then InitialCatalog() else s.catalog)
  }

  /** The state after the guard has run before each of `n` requests. */
  function SeedSteps(s: SeedState, n: nat): SeedState
    decreases n
  {
    if n == 0 then s else SeedSteps(Seed(s), n - 1)
  }

  /** A second run of the guard changes nothing. */
  lemma SeedIdempotent(s: SeedState)
    ensures Seed(Seed(s)) == Seed(s)
  {
  }

  /**
   However many requests arrive, the catalog ends up exactly as after the
   first one: the sample books are inserted at most once per process.
   */
  lemma {:induction false} SeedStepsAsFirst(s: SeedState, n: nat)
    requires n >= 1
    ensures SeedSteps(s, n) == Seed(s)
    decreases n
  {
    if n > 1 {
      SeedStepsAsFirst(Seed(s), n - 1);
      SeedIdempotent(s);
    }
  }

  /**
   Starting the process with an empty catalog, any number of requests leaves
   exactly the three sample books.
   */
  lemma SeedFromEmptyProcess(n: nat)
    requires n >= 1
    ensures SeedSteps(SeedState(false, map[]), n).catalog == InitialCatalog()
    ensures |SeedSteps(SeedState(false, map[]), n).catalog| == 3
  {
    SeedStepsAsFirst(SeedState(false, map[]), n);
  }

  /** Two requests in a row on an empty store: three books, not six. */
  lemma SeedTwiceFromEmpty()
    ensures |Seed(Seed(SeedState(false, map[]))).catalog| == 3
  {
  }
}
